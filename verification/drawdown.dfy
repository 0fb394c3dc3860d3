/** How sharp the drawdown bound is: which sessions reach it, and how close the others come. The
    witnesses are runs of flat candles followed by one that rises. */
module Drawdown {
  import opened Models
  import opened Settlement
  import opened PaperBroker
  import opened Risk
  import opened Strategy
  import opened Session
  import opened SessionLaws
  import opened SessionSchedule

  // ---------- a signal on demand ----------

  function Ones(n: nat): (r: seq<real>)
    ensures |r| == n
  {
    seq(n, _ => 1.0)
  }

  lemma {:induction false} SumOfOnes(n: nat)
    ensures Sum(Ones(n)) == n as real
  {
    if n > 0 {
      assert Ones(n)[..n - 1] == Ones(n - 1);
      SumOfOnes(n - 1);
    }
  }

  lemma MeanOfOnes(n: nat)
    requires n > 0
    ensures Mean(Ones(n)) == 1.0
  {
    SumOfOnes(n);
    hide Sum;
    var x := n as real;
    assert x / x == 1.0;
  }

  lemma MeanOfRise(n: nat)
    requires n > 0
    ensures Mean(Ones(n - 1) + [2.0]) == 1.0 + 1.0 / n as real
  {
    var rise := Ones(n - 1) + [2.0];
    assert rise[..n - 1] == Ones(n - 1);
    SumOfOnes(n - 1);
    assert Sum(rise) == n as real + 1.0;
    hide Sum;
    var x := n as real;
    assert (x + 1.0) / x == 1.0 + 1.0 / x;
  }

  lemma RiseSlices(p: Periods)
    requires p.Valid()
    ensures var h, n := Ones(p.slow) + [2.0], p.slow;
            && h[n - p.fast..n] == Ones(p.fast) && h[n - p.slow..n] == Ones(p.slow)
            && h[n + 1 - p.fast..n + 1] == Ones(p.fast - 1) + [2.0]
            && h[n + 1 - p.slow..n + 1] == Ones(p.slow - 1) + [2.0]
  {
  }

  lemma SpreadsAroundRise(p: Periods)
    requires p.Valid()
    ensures var h, n := Ones(p.slow) + [2.0], p.slow;
            && Spread(p, h, n) == 0.0
            && Spread(p, h, n + 1) == (1.0 + 1.0 / p.fast as real) - (1.0 + 1.0 / p.slow as real)
  {
    RiseSlices(p);
    MeanOfOnes(p.fast);
    MeanOfOnes(p.slow);
    MeanOfRise(p.fast);
    MeanOfRise(p.slow);
    hide Mean, Ones;
  }

  lemma RiseSignals(p: Periods)
    requires p.Valid()
    ensures HistoryCross(p, Ones(p.slow) + [2.0]) == Some(CALL)
  {
    SpreadsAroundRise(p);
    SmallerReciprocal(p.fast as real, p.slow as real);
    hide Spread, Ones;
  }

  lemma SmallerReciprocal(a: real, b: real)
    requires 0.0 < a < b
    ensures 1.0 / a > 1.0 / b
  {
    var x, y := 1.0 / a, 1.0 / b;
    assert x * a == 1.0 && y * b == 1.0;
    assert y > 0.0;
    assert y * a < y * b;
    assert x <= y ==> x * a <= y * a;
  }

  // ---------- one round of flat candles and a rise ----------

  function CandleAt(s: Settings, time: int, close: real): Candle {
    Candle(s.asset, time, close, close, close, close, 1.0, 60)
  }

  function Flats(s: Settings, time: int, n: nat): (r: seq<Item>)
    ensures |r| == n
  {
    seq(n, _ => Bar(CandleAt(s, time, 1.0)))
  }

  function Round(s: Settings, time: int): seq<Item>
    requires s.Valid()
  {
    Flats(s, time, s.smaSlowPeriod) + [Bar(CandleAt(s, time, 2.0))]
  }

  lemma QuietBar(s: Settings, m: Machine, c: Candle)
    requires s.Valid() && c.asset == s.asset && m.open.None? && |m.closes| < s.smaSlowPeriod
    ensures CandleStep(s, m, c) == (m.(closes := m.closes + [c.close]), None)
  {
  }

  lemma {:induction false} FlatStretch(s: Settings, items: seq<Item>, time: int, n: nat)
    requires s.Valid() && n <= s.smaSlowPeriod && Run(s, items).error.None?
    requires Run(s, items).machine.open.None? && Run(s, items).machine.closes == []
    ensures Run(s, items + Flats(s, time, n)).error.None?
    ensures Run(s, items + Flats(s, time, n)).machine == Run(s, items).machine.(closes := Ones(n))
  {
    hide Run, CandleStep, Ones, Flats;
    if n == 0 {
      NoFlats(s, items, time);
    } else {
      var front, c := items + Flats(s, time, n - 1), CandleAt(s, time, 1.0);
      FlatStretch(s, items, time, n - 1);
      FlatsGrow(s, items, time, n - 1);
      StepOfRun(s, front, Bar(c));
      QuietBar(s, Run(s, front).machine, c);
    }
  }

  lemma NoFlats(s: Settings, items: seq<Item>, time: int)
    ensures items + Flats(s, time, 0) == items && Ones(0) == []
  {
  }

  lemma FlatsGrow(s: Settings, items: seq<Item>, time: int, n: nat)
    ensures items + Flats(s, time, n + 1) == items + Flats(s, time, n) + [Bar(CandleAt(s, time, 1.0))]
    ensures Ones(n + 1) == Ones(n) + [1.0]
  {
  }

  /** The order a rise at `time` opens. */
  function RiseAck(s: Settings, id: nat, time: int): OrderAck {
    OrderAck(OrderId(id), Request(s, CALL, time), time + s.defaultExpiryS, PAPER_ENTRY_PRICE)
  }

  lemma OpeningBar(s: Settings, m: Machine, c: Candle)
    requires s.Valid() && Tradable(s) && c.asset == s.asset && m.open.None? && m.risk.state == ACTIVE
    requires s.stakeAmount <= m.ledger.balance
    requires HistoryCross(s.SmaPeriods(), m.closes + [c.close]) == Some(CALL)
    ensures var b := m.ledger;
            CandleStep(s, m, c)
            == (m.(ledger := b.(balance := b.balance - s.stakeAmount, nextId := b.nextId + 1),
                   closes := m.closes + [c.close], open := Some(RiseAck(s, b.nextId, c.openTime))), None)
  {
    hide HistoryCross, OrderId;
  }

  /** A round opens one order, locking one stake, whenever the session may open. */
  lemma {:induction false} RoundOpens(s: Settings, items: seq<Item>, time: int)
    requires s.Valid() && Tradable(s) && Run(s, items).error.None?
    requires var m := Run(s, items).machine;
             && m.open.None? && m.closes == [] && m.risk.state == ACTIVE && s.stakeAmount <= m.ledger.balance
    ensures var m, r := Run(s, items).machine, Run(s, items + Round(s, time));
            && r.error.None? && r.machine.risk == m.risk
            && r.machine.ledger.balance == m.ledger.balance - s.stakeAmount
            && r.machine.open == Some(RiseAck(s, m.ledger.nextId, time))
  {
    hide Run, CandleStep, HistoryCross;
    var n := s.smaSlowPeriod;
    var front, c := items + Flats(s, time, n), CandleAt(s, time, 2.0);
    FlatStretch(s, items, time, n);
    RiseSignals(s.SmaPeriods());
    assert items + Round(s, time) == front + [Bar(c)];
    StepOfRun(s, front, Bar(c));
    OpeningBar(s, Run(s, front).machine, c);
  }

  /** A gap, a candle that decides the open CALL, and a gap. */
  function Expiry(s: Settings, time: int, won: bool): seq<Item> {
    var gap := Gap(s.asset, 60, "reconnect");
    [gap] + [Bar(CandleAt(s, time, if won then 200.0 else 1.0))] + [gap]
  }

  function Verdict(won: bool): Outcome {
    if won then WIN else LOSS
  }

  function Gain(s: Settings, won: bool): real {
    PnlFor(Verdict(won), s.stakeAmount, s.payoutRate)
  }

  lemma SettlingBar(s: Settings, m: Machine, c: Candle, won: bool)
    requires s.Valid() && c.asset == s.asset && c.close == (if won then 200.0 else 1.0)
    requires m.closes == [] && Expired(m, c)
    requires m.open.value == RiseAck(s, |m.log| + 1, m.open.value.request.openedAt)
    requires m.open.value.orderId !in m.ledger.settled
    ensures var (m', e) := CandleStep(s, m, c);
            && e.None? && m'.open.None? && m'.ledger.balance == m.ledger.balance + (s.stakeAmount + Gain(s, won))
            && |m'.log| == |m.log| + 1
            && m'.log[|m.log|].outcome == Verdict(won) && m'.log[|m.log|].pnl == Gain(s, won)
            && m'.risk == RecordTrade(s.RiskLimits(), m.risk, m'.log[|m.log|])
  {
    hide OrderId, RecordTrade, PnlFor;
  }

  /** The session may go on trading, from scratch. */
  predicate Ready(s: Settings, p: Progress) {
    && p.error.None? && p.machine.open.None? && p.machine.closes == []
    && p.machine.risk.state == ACTIVE && s.stakeAmount <= p.machine.ledger.balance
  }

  /** The risk book after one more trade with this verdict. */
  ghost predicate Recorded(s: Settings, before: RiskBook, after: RiskBook, won: bool) {
    exists t: Trade :: t.outcome == Verdict(won) && t.pnl == Gain(s, won)
                       && after == RecordTrade(s.RiskLimits(), before, t)
  }

  /** After a round its expiry books the verdict and leaves the session flat with no history. */
  lemma {:induction false} ExpirySettles(s: Settings, items: seq<Item>, time: int, won: bool)
    requires s.Valid() && Run(s, items).error.None?
    requires var m := Run(s, items).machine;
             && m.open.Some? && time >= m.open.value.expiryAt && m.open.value.request.direction == CALL
    ensures var m, r := Run(s, items).machine, Run(s, items + Expiry(s, time, won));
            && r.error.None? && r.machine.open.None? && r.machine.closes == []
            && r.machine.ledger.balance == m.ledger.balance + (s.stakeAmount + Gain(s, won))
            && Recorded(s, m.risk, r.machine.risk, won)
  {
    hide Run, CandleStep, RecordTrade, OrderId, Gain;
    var m := Run(s, items).machine;
    RunKeepsBooks(s, items);
    FreshOrder(s, m);
    var gap, c := Gap(s.asset, 60, "reconnect"), CandleAt(s, time, if won then 200.0 else 1.0);
    assert items + Expiry(s, time, won) == items + [gap] + [Bar(c)] + [gap];
    StepOfRun(s, items, gap);
    StepOfRun(s, items + [gap], Bar(c));
    StepOfRun(s, items + [gap] + [Bar(c)], gap);
    SettlingBar(s, m.(closes := []), c, won);
  }

  /** One trade from its signal to its settlement. */
  function OneTrade(s: Settings, time: int, won: bool): seq<Item>
    requires s.Valid()
  {
    Round(s, time) + Expiry(s, time + s.defaultExpiryS, won)
  }

  lemma {:induction false} TradeCompletes(s: Settings, items: seq<Item>, time: int, won: bool)
    requires s.Valid() && Tradable(s) && Ready(s, Run(s, items))
    ensures var m, r := Run(s, items).machine, Run(s, items + OneTrade(s, time, won));
            && r.error.None? && r.machine.open.None? && r.machine.closes == []
            && r.machine.ledger.balance == m.ledger.balance + Gain(s, won)
            && Recorded(s, m.risk, r.machine.risk, won)
  {
    hide Run, Round, Expiry, Recorded, Gain, OrderId;
    RoundOpens(s, items, time);
    ExpirySettles(s, items + Round(s, time), time + s.defaultExpiryS, won);
    assert items + OneTrade(s, time, won) == items + Round(s, time) + Expiry(s, time + s.defaultExpiryS, won);
  }

  // ---------- who reaches the bound ----------

  function Bound(s: Settings): real {
    s.startingBalance - Max(s.maxDailyLossPct * s.startingBalance, 0.0) - WorstLoss(s)
  }

  /** The trade that costs most: a stake that stays locked or, with a payout rate below -1, a win. */
  function WorstTrade(s: Settings, time: int): seq<Item>
    requires s.Valid()
  {
    if s.payoutRate >= -1.0 then Round(s, time) else OneTrade(s, time, true)
  }

  lemma RateBelowMinusOne(stake: real, rate: real)
    requires stake > 0.0
    ensures stake * rate >= -stake <==> rate >= -1.0
  {
    assert stake * (1.0 + rate) == stake + stake * rate;
    assert rate >= -1.0 ==> stake * (1.0 + rate) >= 0.0;
    assert rate < -1.0 ==> stake * (1.0 + rate) < 0.0;
  }

  lemma WorstLossIs(s: Settings)
    requires s.stakeAmount > 0.0
    ensures WorstLoss(s) == if s.payoutRate >= -1.0 then s.stakeAmount else -Gain(s, true)
  {
    RateBelowMinusOne(s.stakeAmount, s.payoutRate);
    var product := s.stakeAmount * s.payoutRate;
    assert Gain(s, true) == product;
    hide Gain;
  }

  lemma {:induction false} WorstTradeCostsMost(s: Settings, items: seq<Item>, time: int)
    requires s.Valid() && Tradable(s) && Ready(s, Run(s, items))
    ensures Run(s, items + WorstTrade(s, time)).machine.ledger.balance
         == Run(s, items).machine.ledger.balance - WorstLoss(s)
  {
    hide Run, Round, OneTrade, Recorded, Gain, WorstLoss, OrderId;
    WorstLossIs(s);
    if s.payoutRate >= -1.0 {
      RoundOpens(s, items, time);
    } else {
      TradeCompletes(s, items, time, true);
    }
  }

  lemma StartsReady(s: Settings)
    requires s.Valid()
    ensures Run(s, []) == Progress(Start(s), None, 0)
    ensures s.stakeAmount <= s.startingBalance ==> Ready(s, Run(s, []))
  {
  }

  /** A session that can open one order reaches the bound on some run exactly when its daily limit is
      not positive; otherwise it always stays strictly above. */
  lemma {:induction false} BoundIsReachedExactlyWithoutLimit(s: Settings)
    requires s.Valid() && Tradable(s) && s.stakeAmount <= s.startingBalance
    ensures (exists items :: Run(s, items).machine.ledger.balance == Bound(s))
        <==> s.maxDailyLossPct * s.startingBalance <= 0.0
  {
    hide Run, WorstLoss, WorstTrade;
    if s.maxDailyLossPct * s.startingBalance <= 0.0 {
      StartsReady(s);
      WorstTradeCostsMost(s, [], 0);
      assert [] + WorstTrade(s, 0) == WorstTrade(s, 0);
      assert Run(s, WorstTrade(s, 0)).machine.ledger.balance == Bound(s);
    } else {
      forall items ensures Run(s, items).machine.ledger.balance > Bound(s) {
        DrawdownIsStrict(s, items);
      }
    }
  }

  // ---------- who approaches it ----------

  function Staking(s: Settings, stake: real): Settings {
    s.(stakeAmount := stake)
  }

  ghost predicate ComesWithin(s: Settings, margin: real) {
    s.Valid() && exists items :: Run(s, items).machine.ledger.balance < Bound(s) + margin
  }

  /** Some stake and some run come within `margin` of the bound. */
  ghost predicate Approached(s: Settings, margin: real) {
    exists stake :: stake > 0.0 && ComesWithin(Staking(s, stake), margin)
  }

  /** A session that has lost its limit but for less than the margin, and may still open, comes within
      the margin. */
  lemma {:induction false} OneMoreAndWithin(s: Settings, items: seq<Item>, time: int, margin: real)
    requires s.Valid() && Tradable(s) && Ready(s, Run(s, items)) && s.maxDailyLossPct * s.startingBalance > 0.0
    requires Run(s, items).machine.ledger.balance
           < s.startingBalance - s.maxDailyLossPct * s.startingBalance + margin
    ensures ComesWithin(s, margin)
  {
    hide Run, WorstLoss, WorstTrade, Ready;
    WorstTradeCostsMost(s, items, time);
    assert Run(s, items + WorstTrade(s, time)).machine.ledger.balance < Bound(s) + margin;
  }

  /** One lost trade, where a second loss is allowed. */
  lemma {:induction false} LossComesWithin(s: Settings, margin: real)
    requires s.Valid() && Tradable(s) && s.stakeAmount <= s.startingBalance - s.stakeAmount
    requires s.stakeAmount < s.maxDailyLossPct * s.startingBalance && s.maxConsecutiveLosses >= 2
    requires s.maxDailyLossPct * s.startingBalance < s.stakeAmount + margin
    ensures ComesWithin(s, margin)
  {
    hide Run, OneTrade, OrderId, ComesWithin;
    StartsReady(s);
    TradeCompletes(s, [], 0, false);
    assert [] + OneTrade(s, 0, false) == OneTrade(s, 0, false);
    OneMoreAndWithin(s, OneTrade(s, 0, false), s.defaultExpiryS, margin);
  }

  /** So many wins in a row. */
  function Wins(s: Settings, k: nat): seq<Item>
    requires s.Valid()
  {
    if k == 0 then [] else Wins(s, k - 1) + OneTrade(s, (k - 1) * s.defaultExpiryS, true)
  }

  /** With a negative payout rate wins lose money without ever counting as losses. */
  lemma {:induction false} WinsLose(s: Settings, k: nat, loss: real)
    requires s.Valid() && Tradable(s) && loss == -Gain(s, true) > 0.0 && s.maxConsecutiveLosses >= 1
    requires k as real * loss < s.maxDailyLossPct * s.startingBalance
    requires s.startingBalance - k as real * loss >= s.stakeAmount
    ensures var p := Run(s, Wins(s, k));
            && Ready(s, p) && p.machine.ledger.balance == s.startingBalance - k as real * loss
            && p.machine.risk.dailyPnl == -(k as real * loss)
  {
    hide Run, OneTrade, OrderId, Gain;
    if k == 0 {
      StartsReady(s);
    } else {
      assert (k - 1) as real * loss == k as real * loss - loss;
      WinsLose(s, k - 1, loss);
      TradeCompletes(s, Wins(s, k - 1), (k - 1) * s.defaultExpiryS, true);
    }
  }

  lemma {:induction false} WinsComeWithin(s: Settings, k: nat, loss: real, total: real, margin: real)
    requires s.Valid() && Tradable(s) && loss == -Gain(s, true) > 0.0 && s.maxConsecutiveLosses >= 1
    requires total == k as real * loss && s.startingBalance - total >= s.stakeAmount
    requires 0.0 < total < s.maxDailyLossPct * s.startingBalance < total + margin
    ensures ComesWithin(s, margin)
  {
    hide Run, Wins, Gain, ComesWithin, Ready;
    WinsLose(s, k, loss);
    OneMoreAndWithin(s, Wins(s, k), k * s.defaultExpiryS, margin);
  }

  /** Enough wins, each small enough to be paid for: `k` of them lose `total`, with a stake of at most
      `total`. */
  lemma ManySmallWins(rate: real, total: real) returns (k: nat, stake: real, loss: real)
    requires rate < 0.0 < total
    ensures k > 0 && 0.0 < stake <= total && loss == -(stake * rate) > 0.0 && k as real * loss == total
  {
    var r := -rate;
    var x := 1.0 / r;
    assert x * r == 1.0;
    k := x.Floor + 1;
    var kr := k as real * r;
    assert kr >= 1.0 by {
      assert k as real >= x;
      assert k as real * r >= x * r;
    }
    stake := total / kr;
    assert stake * kr == total;
    assert stake <= total by {
      assert stake > total ==> stake * kr > total;
    }
    loss := stake * r;
    assert k as real * loss == stake * kr;
  }

  function JustBelow(limit: real, margin: real, balance: real): (total: real)
    requires limit > 0.0 && margin > 0.0 && limit <= balance / 2.0
    ensures 0.0 < total < limit < total + margin && total <= balance - total && total < balance - limit
  {
    limit - (if margin < limit then margin else limit) / 2.0
  }

  lemma {:induction false} LimitIsApproached(s: Settings, margin: real, limit: real)
    requires s.Valid() && s.defaultExpiryS in SUPPORTED_EXPIRY_SECONDS && margin > 0.0
    requires limit == s.maxDailyLossPct * s.startingBalance && 0.0 < limit <= s.startingBalance / 2.0
    requires s.maxConsecutiveLosses >= if s.payoutRate < 0.0 then 1 else 2
    ensures Approached(s, margin)
  {
    hide ComesWithin;
    var total := JustBelow(limit, margin, s.startingBalance);
    if s.payoutRate < 0.0 {
      var k, stake, loss := ManySmallWins(s.payoutRate, total);
      var s' := Staking(s, stake);
      assert Gain(s', true) == stake * s.payoutRate;
      WinsComeWithin(s', k, loss, total, margin);
    } else {
      var s' := Staking(s, total);
      LossComesWithin(s', margin);
    }
  }

  ghost predicate Priced(s: Settings, log: seq<Trade>) {
    forall i :: 0 <= i < |log| ==> log[i].pnl == PnlFor(log[i].outcome, s.stakeAmount, s.payoutRate)
  }

  /** A breaker that trips on any loss lets no loss go by, and a breaker that trips on any trade
      nothing at all. */
  lemma {:induction false} StrictBreakerNeverLoses(s: Settings, log: seq<Trade>)
    requires Priced(s, log) && (log != [] ==> s.stakeAmount > 0.0)
    requires s.maxConsecutiveLosses < if s.payoutRate < 0.0 then 1 else 2
    requires RecordAll(s.RiskLimits(), log).state == ACTIVE
    ensures SumPnl(log) >= 0.0
  {
    if log != [] {
      var n := |log| - 1;
      assert Priced(s, log[..n]) by {
        assert forall i :: 0 <= i < n ==> log[..n][i] == log[i];
      }
      StrictBreakerNeverLoses(s, log[..n]);
      LastIsNoLoss(s, RecordAll(s.RiskLimits(), log[..n]), log[n]);
    }
  }

  lemma LastIsNoLoss(s: Settings, before: RiskBook, t: Trade)
    requires t.pnl == PnlFor(t.outcome, s.stakeAmount, s.payoutRate) && s.stakeAmount > 0.0
    requires s.maxConsecutiveLosses < if s.payoutRate < 0.0 then 1 else 2
    requires RecordTrade(s.RiskLimits(), before, t).state == ACTIVE && before.consecutiveLosses >= 0
    ensures t.pnl >= 0.0
  {
  }

  lemma {:induction false} StrictBreakerStaysAway(s: Settings, items: seq<Item>)
    requires s.Valid() && s.maxConsecutiveLosses < if s.payoutRate < 0.0 then 1 else 2
    ensures Run(s, items).machine.ledger.balance >= s.startingBalance - WorstLoss(s)
  {
    hide Run, OrderId, SumPnl, RecordAll, RecordTrade, ResolveOutcome, PnlFor, WorstLoss;
    var l, m := s.RiskLimits(), Run(s, items).machine;
    RunKeepsBooks(s, items);
    WorstLossCoversStake(s);
    forall i | 0 <= i < |m.log|
      ensures m.log[i].pnl == PnlFor(m.log[i].outcome, s.stakeAmount, s.payoutRate)
    {
      assert Entry(s, m, i);
    }
    if m.risk.state == ACTIVE {
      StrictBreakerNeverLoses(s, m.log);
    } else {
      FreshIsActive(l);
      var n := |m.log| - 1;
      assert WasActive(s, m.log, n);
      StrictBreakerNeverLoses(s, m.log[..n]);
      assert m.log == m.log[..n] + [m.log[n]];
      AppendTrade(l, m.log[..n], m.log[n]);
      PnlAtLeastMinusWorst(s, m.log[n].outcome);
    }
  }

  /** A positive daily limit of at most half the balance makes the bound sharp, for a stake chosen to
      the margin, exactly when the breaker lets one losing trade go by: with a payout rate of at least
      0 that takes two tolerated losses in a row, with a negative one, where wins lose, one. */
  lemma {:induction false} BoundIsApproachedExactlyWhen(s: Settings)
    requires s.Valid() && s.defaultExpiryS in SUPPORTED_EXPIRY_SECONDS
    requires var limit := s.maxDailyLossPct * s.startingBalance;
             0.0 < limit <= s.startingBalance / 2.0
    ensures (forall margin :: margin > 0.0 ==> Approached(s, margin))
        <==> s.maxConsecutiveLosses >= if s.payoutRate < 0.0 then 1 else 2
  {
    hide Run, WorstLoss;
    if s.maxConsecutiveLosses >= if s.payoutRate < 0.0 then 1 else 2 {
      forall margin | margin > 0.0 ensures Approached(s, margin) {
        LimitIsApproached(s, margin, s.maxDailyLossPct * s.startingBalance);
      }
    } else {
      var limit := s.maxDailyLossPct * s.startingBalance;
      forall stake ensures !ComesWithin(Staking(s, stake), limit) {
        var s' := Staking(s, stake);
        forall items ensures Run(s', items).machine.ledger.balance >= Bound(s') + limit {
          StrictBreakerStaysAway(s', items);
        }
      }
      assert !Approached(s, limit);
    }
  }
}
