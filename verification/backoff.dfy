/** Reconnect backoff (src/botafuturo/adapters/exnova/reconnect.py) and what it adds up to over a
    whole stream, given the `attempt` counter that `stream_closed_candles` keeps. */
module Backoff {
  import opened Models
  import opened ClosedBars

  const DEFAULT_BASE_S: real := 1.0
  const DEFAULT_CAP_S: real := 60.0

  function Pow2(n: nat): nat {
    if n == 0 then 1 else 2 * Pow2(n - 1)
  }

  function Min(a: real, b: real): real {
    if b < a then b else a
  }

  /** `draw` is the random number in [0, 1] that `uniform` scales. */
  function BackoffDelay(attempt: int, base: real, cap: real, draw: real): Result<real, Error> {
    if attempt < 0 || base <= 0.0 || cap <= 0.0 then Err(BadBackoffArgument)
    else Ok(draw * Min(cap, base * Pow2(attempt) as real))
  }

  /** The longest sleep before reconnect number `attempt` with the default base and cap. */
  function Ceiling(attempt: nat): real {
    Min(DEFAULT_CAP_S, Pow2(attempt) as real)
  }

  /** The drawn fraction of the ceiling. */
  function Jitter(attempt: nat, draw: real): real {
    draw * Ceiling(attempt)
  }

  lemma Scaled(u: real, x: real)
    requires 0.0 <= u <= 1.0 && x >= 0.0
    ensures 0.0 <= u * x <= x
  {
    assert u * x <= 1.0 * x;
  }

  /** Full jitter: for an attempt that is no negative number and positive bounds, the delay is the drawn
      fraction of the doubled base or of the cap, whichever is less, from nothing up to all of it. */
  lemma DelayIsDrawn(attempt: int, base: real, cap: real, draw: real)
    requires 0.0 <= draw <= 1.0
    ensures var d := BackoffDelay(attempt, base, cap, draw);
            && (d.Ok? <==> attempt >= 0 && base > 0.0 && cap > 0.0)
            && (d.Ok? ==> 0.0 <= d.value <= cap && d.value <= base * Pow2(attempt) as real)
            && (d.Ok? && draw == 0.0 ==> d.value == 0.0)
            && (d.Ok? && draw == 1.0 ==> d.value == cap || d.value == base * Pow2(attempt) as real)
  {
    hide Pow2, Min;
    if attempt >= 0 && base > 0.0 && cap > 0.0 {
      var power := base * Pow2(attempt) as real;
      Pow2IsPositive(attempt);
      Grown(base, Pow2(attempt));
      MinIsLess(cap, power);
      Fraction(draw, Min(cap, power), BackoffDelay(attempt, base, cap, draw).value);
    }
  }

  lemma Fraction(draw: real, upper: real, d: real)
    requires 0.0 <= draw <= 1.0 && upper >= 0.0 && d == draw * upper
    ensures 0.0 <= d <= upper && (draw == 0.0 ==> d == 0.0) && (draw == 1.0 ==> d == upper)
  {
    Scaled(draw, upper);
  }

  lemma Grown(base: real, n: nat)
    requires base > 0.0
    ensures base * n as real >= 0.0
  {
  }

  lemma MinIsLess(a: real, b: real)
    ensures Min(a, b) <= a && Min(a, b) <= b && (Min(a, b) == a || Min(a, b) == b)
  {
  }

  lemma {:induction false} Pow2IsPositive(n: nat)
    ensures Pow2(n) >= 1
  {
    if n > 0 {
      Pow2IsPositive(n - 1);
    }
  }

  lemma JitterIsBounded(attempt: nat, draw: real)
    requires 0.0 <= draw <= 1.0
    ensures 0.0 <= Jitter(attempt, draw) <= Ceiling(attempt)
    ensures draw == 0.0 ==> Jitter(attempt, draw) == 0.0
    ensures draw == 1.0 ==> Jitter(attempt, draw) == Ceiling(attempt)
  {
    CeilingIsPositive(attempt);
    hide Ceiling;
    Fraction(draw, Ceiling(attempt), Jitter(attempt, draw));
  }

  /** With the default bounds it is that fraction of the ceiling. */
  lemma DelayIsBounded(attempt: nat, draw: real)
    requires 0.0 <= draw <= 1.0
    ensures var d := BackoffDelay(attempt, DEFAULT_BASE_S, DEFAULT_CAP_S, draw);
            && d.Ok? && d.value == Jitter(attempt, draw) && 0.0 <= d.value <= Ceiling(attempt)
            && (draw == 0.0 ==> d.value == 0.0) && (draw == 1.0 ==> d.value == Ceiling(attempt))
  {
    hide Pow2;
    var power := Pow2(attempt) as real;
    assert DEFAULT_BASE_S * power == power;
    CeilingIsPositive(attempt);
    Fraction(draw, Ceiling(attempt), BackoffDelay(attempt, DEFAULT_BASE_S, DEFAULT_CAP_S, draw).value);
  }

  /** The ceilings in seconds. */
  lemma CeilingInSeconds(attempt: nat)
    ensures Ceiling(attempt) == match attempt
                                case 0 => 1.0
                                case 1 => 2.0
                                case 2 => 4.0
                                case 3 => 8.0
                                case 4 => 16.0
                                case 5 => 32.0
                                case _ => 60.0
  {
    CeilingDoublesThenStays(attempt);
    assert Pow2(3) == 8;
    assert Pow2(4) == 16 && Pow2(5) == 32;
  }

  lemma {:induction false} CeilingDoublesThenStays(attempt: nat)
    ensures Ceiling(attempt) <= Ceiling(attempt + 1)
    ensures attempt >= 6 ==> Pow2(attempt) >= 64 && Ceiling(attempt) == DEFAULT_CAP_S
    ensures attempt <= 5 ==> Ceiling(attempt) == Pow2(attempt) as real && Pow2(attempt) <= 32
  {
    if attempt > 0 {
      CeilingDoublesThenStays(attempt - 1);
      if attempt == 6 {
        assert Pow2(6) == 64 by {
          assert Pow2(3) == 8;
        }
      }
      if attempt <= 5 {
        assert Pow2(1) == 2 && Pow2(2) == 4 && Pow2(3) == 8;
        assert Pow2(4) == 16;
        assert Pow2(5) == 32;
      }
    }
  }

  // ---------- the attempt counter over a stream ----------

  /** A matching candle push or a heartbeat proves the connection alive. */
  predicate Proves(src: Source, msg: Msg) {
    Matches(src, msg) || msg.TimeSync?
  }

  predicate Resets(src: Source, epoch: seq<Msg>) {
    exists i :: 0 <= i < |epoch| && Proves(src, epoch[i])
  }

  /** The value of `attempt` at the loss that ended the last of these epochs. */
  function Attempt(src: Source, lost: seq<seq<Msg>>): nat {
    if lost == [] then 0
    else
      var n := |lost| - 1;
      (if Resets(src, lost[n]) then 0 else Attempt(src, lost[..n])) + 1
  }

  /** A heartbeat or a push of the streamed instrument has come in. */
  ghost predicate Alive(src: Source, epoch: seq<Msg>) {
    exists i :: 0 <= i < |epoch| && (epoch[i].TimeSync? || IsPush(src, epoch[i]))
  }

  lemma ResetsExactlyWhenAlive(src: Source, epoch: seq<Msg>)
    ensures Resets(src, epoch) <==> Alive(src, epoch)
  {
    if Resets(src, epoch) {
      var i :| 0 <= i < |epoch| && Proves(src, epoch[i]);
      assert epoch[i].TimeSync? || IsPush(src, epoch[i]);
    }
    if Alive(src, epoch) {
      var i :| 0 <= i < |epoch| && (epoch[i].TimeSync? || IsPush(src, epoch[i]));
      assert Proves(src, epoch[i]);
    }
  }

  /** The counter is the number of consecutive losses since the connection last proved alive. */
  lemma {:induction false} AttemptCountsLosses(src: Source, lost: seq<seq<Msg>>, j: nat)
    requires j <= |lost| && (j == 0 || Alive(src, lost[j - 1]))
    requires forall i :: j <= i < |lost| ==> !Alive(src, lost[i])
    ensures Attempt(src, lost) == |lost| - j + (if j == 0 then 0 else 1)
  {
    hide Resets, Alive;
    if lost != [] {
      var n := |lost| - 1;
      ResetsExactlyWhenAlive(src, lost[n]);
      if j <= n {
        AttemptCountsLosses(src, lost[..n], j);
      }
    }
  }

  /** Sleep number i was no longer than the attempt counter allowed. */
  ghost predicate SleepWithin(src: Source, lost: seq<seq<Msg>>, slept: seq<real>, i: nat)
    requires i < |slept| && i < |lost|
  {
    0.0 <= slept[i] <= Ceiling(Attempt(src, lost[..i + 1]))
  }

  ghost predicate SleepsWithin(src: Source, lost: seq<seq<Msg>>, slept: seq<real>) {
    && |slept| <= |lost|
    && forall i :: 0 <= i < |slept| ==> SleepWithin(src, lost, slept, i)
  }

  lemma SleepsSurviveLoss(src: Source, lost: seq<seq<Msg>>, epoch: seq<Msg>, slept: seq<real>)
    requires SleepsWithin(src, lost, slept)
    ensures SleepsWithin(src, lost + [epoch], slept)
  {
    hide Attempt, Ceiling;
    forall i | 0 <= i < |slept| ensures SleepWithin(src, lost + [epoch], slept, i) {
      assert SleepWithin(src, lost, slept, i);
      assert (lost + [epoch])[..i + 1] == lost[..i + 1];
    }
  }

  lemma SleepOnce(src: Source, lost: seq<seq<Msg>>, slept: seq<real>, delay: real)
    requires SleepsWithin(src, lost, slept) && |slept| + 1 == |lost|
    requires 0.0 <= delay <= Ceiling(Attempt(src, lost))
    ensures SleepsWithin(src, lost, slept + [delay])
  {
    hide Attempt, Ceiling;
    forall i | 0 <= i < |lost| ensures SleepWithin(src, lost, slept + [delay], i) {
      if i < |slept| {
        assert SleepWithin(src, lost, slept, i);
      } else {
        assert lost[..i + 1] == lost;
      }
    }
  }

  /** Sleep number i was the i-th draw of the ceiling of its attempt. */
  ghost predicate SleptAsDrawn(draw: nat -> real, src: Source, lost: seq<seq<Msg>>, slept: seq<real>, i: nat)
    requires i < |slept| && i < |lost|
  {
    slept[i] == Jitter(Attempt(src, lost[..i + 1]), draw(i))
  }

  ghost predicate SleepsAsDrawn(draw: nat -> real, src: Source, lost: seq<seq<Msg>>, slept: seq<real>) {
    && |slept| <= |lost|
    && forall i :: 0 <= i < |slept| ==> SleptAsDrawn(draw, src, lost, slept, i)
  }

  lemma DrawnSleepsAreWithin(draw: nat -> real, src: Source, lost: seq<seq<Msg>>, slept: seq<real>)
    requires SleepsAsDrawn(draw, src, lost, slept) && forall n: nat :: 0.0 <= draw(n) <= 1.0
    ensures SleepsWithin(src, lost, slept)
  {
    hide Attempt, Ceiling, Jitter;
    forall i | 0 <= i < |slept| ensures SleepWithin(src, lost, slept, i) {
      assert SleptAsDrawn(draw, src, lost, slept, i);
      JitterIsBounded(Attempt(src, lost[..i + 1]), draw(i));
    }
  }

  lemma CeilingIsPositive(attempt: nat)
    ensures Ceiling(attempt) > 0.0
  {
    Pow2IsPositive(attempt);
  }

  lemma DrawnSleepsSurvive(draw: nat -> real, src: Source, lost: seq<seq<Msg>>, more: seq<seq<Msg>>, slept: seq<real>)
    requires SleepsAsDrawn(draw, src, lost, slept)
    ensures SleepsAsDrawn(draw, src, lost + more, slept)
  {
    hide Attempt, Jitter;
    forall i | 0 <= i < |slept| ensures SleptAsDrawn(draw, src, lost + more, slept, i) {
      assert SleptAsDrawn(draw, src, lost, slept, i);
      assert (lost + more)[..i + 1] == lost[..i + 1];
    }
  }

  lemma DrawOnce(draw: nat -> real, src: Source, lost: seq<seq<Msg>>, slept: seq<real>, delay: real)
    requires SleepsAsDrawn(draw, src, lost, slept) && |slept| + 1 == |lost|
    requires delay == Jitter(Attempt(src, lost), draw(|slept|))
    ensures SleepsAsDrawn(draw, src, lost, slept + [delay])
  {
    hide Attempt, Jitter;
    forall i | 0 <= i < |lost| ensures SleptAsDrawn(draw, src, lost, slept + [delay], i) {
      if i < |slept| {
        assert SleptAsDrawn(draw, src, lost, slept, i);
      } else {
        assert lost[..i + 1] == lost;
      }
    }
  }

  function Total(sleeps: seq<real>): real {
    if sleeps == [] then 0.0 else Total(sleeps[..|sleeps| - 1]) + sleeps[|sleeps| - 1]
  }

  /** The longest total sleep of n consecutive losses. */
  function Budget(n: nat): real {
    if n <= 5 then Pow2(n + 1) as real - 2.0 else 62.0 + 60.0 * (n as real - 5.0)
  }

  lemma {:induction false} BudgetIsTheSum(n: nat)
    ensures Budget(0) == 0.0
    ensures Budget(n + 1) == Budget(n) + Ceiling(n + 1)
  {
    CeilingDoublesThenStays(n + 1);
    if n == 5 {
      assert Pow2(6) == 64 by {
        assert Pow2(3) == 8;
      }
    }
  }

  /** n losses in a row, none of the n-1 later connections proving alive, sleep at most Budget(n). */
  lemma {:induction false} LosingStreakSleepsWithinBudget(src: Source, lost: seq<seq<Msg>>, slept: seq<real>,
    j: nat, n: nat)
    requires SleepsWithin(src, lost, slept) && j + n <= |slept|
    requires n > 0 ==> j == 0 || Alive(src, lost[j])
    requires forall i :: j < i < j + n ==> !Alive(src, lost[i])
    ensures Total(slept[j..j + n]) <= Budget(n)
  {
    BudgetIsTheSum(0);
    if n > 0 {
      hide Attempt, Resets, Alive, Budget, Ceiling;
      LosingStreakSleepsWithinBudget(src, lost, slept, j, n - 1);
      BudgetIsTheSum(n - 1);
      var upto := lost[..j + n];
      if Alive(src, lost[j]) {
        AttemptCountsLosses(src, upto, j + 1);
      } else {
        assert j == 0;
        AttemptCountsLosses(src, upto, 0);
      }
      assert SleepWithin(src, lost, slept, j + n - 1);
      assert slept[j..j + n][..n - 1] == slept[j..j + n - 1];
    }
  }
}
