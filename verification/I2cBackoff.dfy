/** Health statistics of the shared I2C bus: the error streak, the retry backoff and the throttle on
    bus recovery. */
module I2cBackoff {
  import opened EspErr
  import opened Folds
  import opened Powers

  const WRAP := 0x1_0000_0000
  const THROTTLE_US := 200000

  /** Milliseconds in ticks of a clock of hz ticks a second. */
  function Ticks(ms: nat, hz: nat): nat {
    ms * hz / 1000
  }

  /** A 32-bit counter. */
  function Wrap(n: nat): nat {
    n % WRAP
  }

  /** The statistics; last is the time of the last recovery, zero when there was none. */
  datatype State = State(streak: nat, good: nat, backoff: nat, last: int)

  const HEALTHY: State := State(0, 0, 0, 0)

  datatype Event = Error | Success | Recover(now: int, force: bool)

  predicate Skips(s: State, now: int, force: bool) {
    !force && s.last != 0 && now - s.last < THROTTLE_US
  }

  function NextBackoff(backoff: nat, hz: nat): nat {
    var next := if backoff == 0 then Ticks(10, hz) else Wrap(2 * backoff);
    if next > Ticks(200, hz) then Ticks(200, hz) else next
  }

  function Step(hz: nat): (State, Event) -> State {
    (s: State, e: Event) =>
      match e
      case Error => State(Wrap(s.streak + 1), 0, NextBackoff(s.backoff, hz), s.last)
      case Success =>
        if s.streak == 0 then s
        else if s.good + 1 >= 4 then State(0, 0, 0, s.last)
        else s.(good := s.good + 1)
      case Recover(now, force) =>
        if Skips(s, now, force) then s
        else if force then s.(last := now, backoff := 0)
        else s.(last := now)
  }

  class Stats {
    var streak: nat
    var good: nat
    var backoff: nat
    var last: int
    const hz: nat

    function Model(): State
      reads this
    {
      State(streak, good, backoff, last)
    }

    constructor (hz: nat)
      ensures Model() == HEALTHY && this.hz == hz
    {
      streak, good, backoff, last, this.hz := 0, 0, 0, 0, hz;
    }

    method NoteSuccess()
      modifies this
      ensures Model() == Step(hz)(old(Model()), Success)
    {
      if streak > 0 {
        good := good + 1;
        if good >= 4 {
          backoff, streak, good := 0, 0, 0;
        }
      }
    }

    method NoteError()
      modifies this
      ensures Model() == Step(hz)(old(Model()), Error)
    {
      streak := Wrap(streak + 1);
      good := 0;
      var next := if backoff == 0 then Ticks(10, hz) else Wrap(2 * backoff);
      if next > Ticks(200, hz) {
        next := Ticks(200, hz);
      }
      assert next == NextBackoff(old(backoff), hz);
      backoff := next;
    }

    /** repaired is the outcome of the pin toggling and of the initialisation that may follow it. */
    method RecoverInternal(now: int, force: bool, repaired: Err) returns (err: Err)
      modifies this
      ensures Model() == Step(hz)(old(Model()), Recover(now, force))
      ensures err == if Skips(old(Model()), now, force) then InvalidState else repaired
      ensures force || old(last) == 0 || now - old(last) >= 200000 ==>
        err == repaired && Model() == old(Model()).(last := now, backoff := if force then 0 else old(backoff))
      ensures !force && old(last) != 0 && now - old(last) < 200000 ==> err == InvalidState && Model() == old(Model())
    {
      if !force {
        if last != 0 && now - last < THROTTLE_US {
          return InvalidState;
        }
        last := now;
      } else {
        last := now;
        backoff := 0;
      }
      err := repaired;
    }
  }

  // ----- what a history says

  function Run(hz: nat, es: seq<Event>): State {
    Fold(Step(hz), HEALTHY, es)
  }

  /** Successes since the last error. */
  function Trail(es: seq<Event>): nat {
    if es == [] then 0
    else match es[|es| - 1]
      case Error => 0
      case Success => Trail(es[..|es| - 1]) + 1
      case Recover(_, _) => Trail(es[..|es| - 1])
  }

  /** A success that completes four in a row since an error, which ends the streak; it does not when the
      32-bit streak has just wrapped to zero. */
  predicate Ends(es: seq<Event>)
    requires es != []
    decreases |es|, 0
  {
    es[|es| - 1] == Success && Trail(es) >= 4 && Wrap(Errors(es[..|es| - 1])) != 0
  }

  /** Errors since the last streak ended. */
  function Errors(es: seq<Event>): nat
    decreases |es|, 1
  {
    if es == [] then 0
    else if es[|es| - 1] == Error then Errors(es[..|es| - 1]) + 1
    else if Ends(es) then 0
    else Errors(es[..|es| - 1])
  }

  /** Errors since the backoff was last dropped, by the end of a streak or by a forced recovery. */
  function Unforgiven(es: seq<Event>): nat {
    if es == [] then 0
    else
      var e := es[|es| - 1];
      if e == Error then Unforgiven(es[..|es| - 1]) + 1
      else if Ends(es) || (e.Recover? && e.force) then 0
      else Unforgiven(es[..|es| - 1])
  }

  function Min(a: nat, b: nat): nat {
    if a < b then a else b
  }

  /** The backoff after k errors. */
  function Backoff(k: nat, hz: nat): nat {
    if k == 0 then 0 else Min(Ticks(200, hz), Ticks(10, hz) * Pow2(k - 1))
  }

  lemma TimesTwo(t: nat, p: nat)
    ensures t * (2 * p) == 2 * (t * p)
    ensures p >= 1 && t >= 1 ==> t * p >= 1
    ensures t == 0 ==> t * p == 0
  {
  }

  lemma WrapNext(n: nat)
    ensures Wrap(Wrap(n) + 1) == Wrap(n + 1)
    ensures Wrap(0) == 0
  {
  }

  lemma TickBounds(hz: nat)
    requires hz < WRAP
    ensures Ticks(10, hz) <= Ticks(200, hz)
    ensures forall b :: 0 <= b <= Ticks(200, hz) ==> Wrap(2 * b) == 2 * b
  {
  }

  /** With a 32-bit tick rate the doubling never overflows, so one more error moves to the next value. */
  lemma BackoffNext(k: nat, hz: nat)
    requires hz < WRAP
    ensures NextBackoff(Backoff(k, hz), hz) == Backoff(k + 1, hz)
  {
    TickBounds(hz);
    hide Ticks, Wrap;
    if k > 0 {
      Pow2Positive(k - 1);
      TimesTwo(Ticks(10, hz), Pow2(k - 1));
    }
  }

  /** The statistics in closed form, for every history of errors, successes and recoveries. */
  lemma {:induction false} ClosedForm(hz: nat, es: seq<Event>)
    requires hz < WRAP
    ensures var s := Run(hz, es);
      && s.streak == Wrap(Errors(es))
      && s.good == (if s.streak == 0 then 0 else Trail(es))
      && s.good < 4
      && s.backoff == Backoff(Unforgiven(es), hz)
      && Unforgiven(es) <= Errors(es)
    decreases |es|
  {
    if es != [] {
      var n := |es| - 1;
      assert es == es[..n] + [es[n]];
      ClosedForm(hz, es[..n]);
      Snoc(Step(hz), HEALTHY, es[..n], es[n]);
      BackoffNext(Unforgiven(es[..n]), hz);
      WrapNext(Errors(es[..n]));
      hide Backoff, NextBackoff, Run, Wrap;
    }
  }

  // ----- when the streak and the backoff disagree

  lemma {:induction false} ErrorsBound(es: seq<Event>)
    ensures Errors(es) <= |es|
    decreases |es|
  {
    if es != [] {
      ErrorsBound(es[..|es| - 1]);
    }
  }

  lemma BackoffPositive(k: nat, hz: nat)
    requires k > 0 && Ticks(10, hz) > 0
    ensures Backoff(k, hz) > 0
  {
    Pow2Positive(k - 1);
    TimesTwo(Ticks(10, hz), Pow2(k - 1));
  }

  /** A zero streak means a zero backoff in every history, except exactly those whose streak has counted
      a positive multiple of 2^32 errors without the backoff being dropped since. */
  lemma StreakZero(hz: nat, es: seq<Event>)
    requires hz < WRAP && Ticks(10, hz) > 0
    ensures Run(hz, es).streak == 0 && Run(hz, es).backoff != 0 <==>
      Errors(es) > 0 && Wrap(Errors(es)) == 0 && Unforgiven(es) > 0
    ensures |es| < WRAP && Run(hz, es).streak == 0 ==> Run(hz, es).backoff == 0
  {
    ClosedForm(hz, es);
    ErrorsBound(es);
    if Unforgiven(es) > 0 {
      BackoffPositive(Unforgiven(es), hz);
    }
    hide Run, Ticks;
  }

  function Repeat(e: Event, n: nat): (es: seq<Event>)
    ensures |es| == n && forall i :: 0 <= i < n ==> es[i] == e
  {
    seq(n, _ => e)
  }

  lemma {:induction false} ErrorsOnly(n: nat)
    ensures Errors(Repeat(Error, n)) == n && Unforgiven(Repeat(Error, n)) == n
  {
    if n > 0 {
      assert Repeat(Error, n)[..n - 1] == Repeat(Error, n - 1);
      ErrorsOnly(n - 1);
    }
  }

  lemma {:induction false} Pow2Big(k: nat)
    requires k >= 6
    ensures Pow2(k) >= 64
  {
    if k == 6 {
      assert Pow2(6) == 2 * Pow2(5) == 4 * Pow2(4) == 8 * Pow2(3) == 16 * Pow2(2) == 32 * Pow2(1) == 64;
    } else {
      Pow2Big(k - 1);
    }
  }

  lemma Saturates(k: nat, hz: nat)
    requires k >= 7 && Ticks(10, hz) > 0
    ensures Backoff(k, hz) == Ticks(200, hz)
  {
    Pow2Big(k - 1);
    assert Ticks(200, hz) <= 20 * Ticks(10, hz) + 20 <= 40 * Ticks(10, hz);
    var t, p := Ticks(10, hz), Pow2(k - 1);
    assert t * p >= t * 64;
  }

  /** Four successes in a row restore the healthy statistics from every reachable state except the
      wrapped one: a zero streak with a backoff still pending. */
  lemma FourSuccessesRestore(hz: nat, es: seq<Event>)
    requires hz < WRAP
    ensures var s, t := Run(hz, es), Run(hz, es + Repeat(Success, 4));
      && t.streak == 0 && t.good == 0
      && (t.backoff == 0 <==> s.streak > 0 || s.backoff == 0)
  {
    ClosedForm(hz, es);
    Chain(Step(hz), HEALTHY, es, Repeat(Success, 4));
    var s := Run(hz, es);
    FourSteps(hz, s);
  }

  lemma FourSteps(hz: nat, s: State)
    requires s.good < 4 && (s.streak == 0 ==> s.good == 0)
    ensures var t := Fold(Step(hz), s, Repeat(Success, 4));
      if s.streak == 0 then t == s else t == State(0, 0, 0, s.last)
  {
    var f, four := Step(hz), Repeat(Success, 4);
    var a := f(s, Success);
    var b := f(a, Success);
    var c := f(b, Success);
    assert four == [Success, Success, Success, Success];
    assert four[1..] == [Success, Success, Success];
    assert four[1..][1..] == [Success, Success];
    assert four[1..][1..][1..] == [Success];
    assert Fold(f, s, four) == Fold(f, a, four[1..]) == Fold(f, b, four[1..][1..])
        == Fold(f, c, four[1..][1..][1..]) == f(c, Success);
  }

  /** The exception is reached: after 2^32 errors in a row the streak reads zero, the backoff is at its
      maximum, and no number of successes clears it. */
  lemma WrappedStreakSticks(hz: nat, n: nat)
    requires hz < WRAP && Ticks(10, hz) > 0
    ensures var s := Run(hz, Repeat(Error, WRAP) + Repeat(Success, n));
      s.streak == 0 && s.backoff == Ticks(200, hz) > 0
  {
    var es := Repeat(Error, WRAP);
    ErrorsOnly(WRAP);
    ClosedForm(hz, es);
    Saturates(WRAP, hz);
    Chain(Step(hz), HEALTHY, es, Repeat(Success, n));
    SuccessesIgnored(hz, Run(hz, es), n);
  }

  lemma {:induction false} SuccessesIgnored(hz: nat, s: State, n: nat)
    requires s.streak == 0
    ensures Fold(Step(hz), s, Repeat(Success, n)) == s
  {
    if n > 0 {
      assert Repeat(Success, n)[1..] == Repeat(Success, n - 1);
      SuccessesIgnored(hz, s, n - 1);
    }
  }

  // ----- the throttle on recovery

  /** Recovery number i takes place. */
  predicate Recovers(hz: nat, es: seq<Event>, i: nat)
    requires i < |es|
  {
    es[i].Recover? && !Skips(Run(hz, es[..i]), es[i].now, es[i].force)
  }

  /** The throttle lets a recovery through exactly when it is forced, the first one, or 200 ms or more
      after the last one that took place. */
  lemma RecoversIff(hz: nat, es: seq<Event>, i: nat)
    requires i < |es| && es[i].Recover?
    ensures Recovers(hz, es, i) <==>
      es[i].force || Run(hz, es[..i]).last == 0 || es[i].now - Run(hz, es[..i]).last >= 200000
    ensures Recovers(hz, es, i) ==> Run(hz, es[..i + 1]).last == es[i].now
    ensures !Recovers(hz, es, i) ==> Run(hz, es[..i + 1]) == Run(hz, es[..i])
  {
    assert es[..i + 1] == es[..i] + [es[i]];
    Snoc(Step(hz), HEALTHY, es[..i], es[i]);
  }

  predicate ClockRuns(es: seq<Event>) {
    forall i, j :: 0 <= i < j < |es| && es[i].Recover? && es[j].Recover? ==> 0 < es[i].now <= es[j].now
  }

  lemma {:induction false} LastNotBefore(hz: nat, es: seq<Event>, i: nat, j: nat)
    requires ClockRuns(es) && i < j < |es| && Recovers(hz, es, i)
    ensures Run(hz, es[..j]).last >= es[i].now
    decreases j
  {
    assert es[..j] == es[..j - 1] + [es[j - 1]];
    Snoc(Step(hz), HEALTHY, es[..j - 1], es[j - 1]);
    if i < j - 1 {
      LastNotBefore(hz, es, i, j - 1);
    }
  }

  /** An unforced recovery comes at least 200 ms after every recovery before it, forced or not. */
  lemma RecoveriesApart(hz: nat, es: seq<Event>, i: nat, j: nat)
    requires ClockRuns(es) && i < j < |es|
    requires Recovers(hz, es, i) && Recovers(hz, es, j) && !es[j].force
    ensures es[j].now - es[i].now >= THROTTLE_US
  {
    LastNotBefore(hz, es, i, j);
  }
}
