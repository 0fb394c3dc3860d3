/** What every reachable state of a wired session keeps: the books, the risk gate, the drawdown
    bound and the terminal halt. All laws are over `Run`, for every list of stream items. */
module SessionLaws {
  import opened Models
  import opened Settlement
  import opened PaperBroker
  import opened Risk
  import opened Strategy
  import opened Session

  // ---------- the invariant ----------

  /** `ack` is the n-th order this session placed. */
  ghost predicate OwnOrder(s: Settings, ack: OrderAck, n: nat) {
    && ack.orderId == OrderId(n)
    && ack.request == Request(s, ack.request.direction, ack.request.openedAt)
    && ack.expiryAt == ack.request.openedAt + s.defaultExpiryS
    && ack.entryPrice == PAPER_ENTRY_PRICE
  }

  function Orders(m: Machine): nat {
    |m.log| + (if m.open.Some? then 1 else 0)
  }

  function AtStake(s: Settings, m: Machine): real {
    if m.open.Some? then s.stakeAmount else 0.0
  }

  /** The i-th logged trade is the i-th order, resolved at its expiry price and stamped with the
      balance after it, and the broker remembers it as settled. */
  ghost predicate Entry(s: Settings, m: Machine, i: nat)
    requires i < |m.log|
  {
    var t := m.log[i];
    && OwnOrder(s, t.ack, i + 1)
    && t == TradeOf(t.ack, t.expiryPrice, s.startingBalance + SumPnl(m.log[..i]) - s.stakeAmount)
    && t.ack.orderId in m.ledger.settled
    && m.ledger.settled[t.ack.orderId] == t
  }

  ghost predicate Logged(log: seq<Trade>, id: string) {
    exists i :: 0 <= i < |log| && log[i].ack.orderId == id
  }

  /** Broker, position and log tell one story. */
  ghost predicate Booked(s: Settings, m: Machine) {
    && m.ledger.nextId == Orders(m) + 1
    && m.ledger.balance == s.startingBalance + SumPnl(m.log) - AtStake(s, m)
    && (m.open.Some? ==> OwnOrder(s, m.open.value, |m.log| + 1))
    && (forall i :: 0 <= i < |m.log| ==> Entry(s, m, i))
    && (forall id :: id in m.ledger.settled ==> Logged(m.log, id))
  }

  ghost predicate WasActive(s: Settings, log: seq<Trade>, k: nat)
    requires k <= |log|
  {
    RecordAll(s.RiskLimits(), log[..k]).state == ACTIVE
  }

  /** The risk manager has seen exactly the log, and let no order through once halted. */
  ghost predicate Gated(s: Settings, m: Machine) {
    && m.risk == RecordAll(s.RiskLimits(), m.log)
    && (forall k :: 0 <= k < |m.log| ==> WasActive(s, m.log, k))
    && (m.open.Some? ==> m.risk.state == ACTIVE)
    && (Orders(m) > 0 ==> s.stakeAmount > 0.0 && s.defaultExpiryS in SUPPORTED_EXPIRY_SECONDS)
  }

  lemma FreshOrder(s: Settings, m: Machine)
    requires Booked(s, m) && m.open.Some?
    ensures m.open.value.orderId !in m.ledger.settled
  {
    hide OrderId, SumPnl;
    forall i | 0 <= i < |m.log| ensures m.log[i].ack.orderId != m.open.value.orderId {
      assert Entry(s, m, i);
      OrderIdInjective(i + 1, |m.log| + 1);
    }
  }

  lemma AppendTrade(l: Limits, log: seq<Trade>, t: Trade)
    ensures SumPnl(log + [t]) == SumPnl(log) + t.pnl
    ensures RecordAll(l, log + [t]) == RecordTrade(l, RecordAll(l, log), t)
  {
    assert (log + [t])[..|log|] == log;
  }

  lemma SettleKeepsEntries(s: Settings, m: Machine, c: Candle, i: nat)
    requires Booked(s, m) && Expired(m, c) && i <= |m.log|
    ensures Entry(s, MaybeSettle(s, m, c), i)
  {
    hide OrderId, SumPnl, ResolveOutcome, PnlFor;
    FreshOrder(s, m);
    var m' := MaybeSettle(s, m, c);
    assert m'.log[..i] == m.log[..i];
    if i < |m.log| {
      assert Entry(s, m, i);
    } else {
      assert m.log[..i] == m.log;
    }
  }

  /** Settling the open position books exactly one trade and frees exactly its stake. */
  lemma SettleKeepsBooks(s: Settings, m: Machine, c: Candle)
    requires Booked(s, m) && Gated(s, m)
    ensures Booked(s, MaybeSettle(s, m, c)) && Gated(s, MaybeSettle(s, m, c))
  {
    hide OrderId, SumPnl, RecordAll, RecordTrade, ResolveOutcome, PnlFor, Entry;
    if Expired(m, c) {
      FreshOrder(s, m);
      var m', n := MaybeSettle(s, m, c), |m.log|;
      AppendTrade(s.RiskLimits(), m.log, m'.log[n]);
      forall i | 0 <= i < |m'.log| ensures Entry(s, m', i) {
        SettleKeepsEntries(s, m, c, i);
      }
      forall k | 0 <= k < |m'.log| ensures WasActive(s, m'.log, k) {
        assert m'.log[..k] == m.log[..k];
        if k < n {
          assert WasActive(s, m.log, k);
        } else {
          assert m.log[..k] == m.log;
        }
      }
      forall id | id in m'.ledger.settled ensures Logged(m'.log, id) {
        if id == m.open.value.orderId {
          assert m'.log[n].ack.orderId == id;
        } else {
          assert Logged(m.log, id);
          var i :| 0 <= i < n && m.log[i].ack.orderId == id;
          assert m'.log[i].ack.orderId == id;
        }
      }
    }
  }

  lemma OpenKeepsBooks(s: Settings, m: Machine, c: Candle, signal: Signal)
    requires Booked(s, m) && Gated(s, m) && m.open.None?
    ensures Booked(s, MaybeOpen(s, m, c, signal).0) && Gated(s, MaybeOpen(s, m, c, signal).0)
  {
    hide OrderId, SumPnl, RecordAll, RecordTrade, ResolveOutcome, PnlFor;
    var m' := MaybeOpen(s, m, c, signal).0;
    assert m'.log == m.log && m'.ledger.settled == m.ledger.settled;
    forall i | 0 <= i < |m.log| ensures Entry(s, m', i) {
      assert Entry(s, m, i);
    }
  }

  lemma ClosesDoNotMatter(s: Settings, m: Machine, closes: seq<real>)
    requires Booked(s, m) && Gated(s, m)
    ensures Booked(s, m.(closes := closes)) && Gated(s, m.(closes := closes))
  {
    hide OrderId, SumPnl, RecordAll, RecordTrade, ResolveOutcome, PnlFor;
    var m' := m.(closes := closes);
    forall i | 0 <= i < |m.log| ensures Entry(s, m', i) {
      assert Entry(s, m, i);
    }
  }

  lemma StepKeepsBooks(s: Settings, m: Machine, c: Candle)
    requires s.Valid() && Booked(s, m) && Gated(s, m)
    ensures Booked(s, CandleStep(s, m, c).0) && Gated(s, CandleStep(s, m, c).0)
  {
    hide Booked, Gated, MaybeSettle, MaybeOpen, SignalFor;
    if c.asset == s.asset {
      SettleKeepsBooks(s, m, c);
      var settled := MaybeSettle(s, m, c);
      var fed := settled.(closes := settled.closes + [c.close]);
      ClosesDoNotMatter(s, settled, fed.closes);
      var signal := SignalFor(s.SmaPeriods(), fed.closes, c);
      if signal.Some? && fed.open.None? {
        OpenKeepsBooks(s, fed, c, signal.value);
      }
    }
  }

  lemma {:induction false} RunKeepsBooks(s: Settings, items: seq<Item>)
    requires s.Valid()
    ensures Booked(s, Run(s, items).machine) && Gated(s, Run(s, items).machine)
  {
    if items == [] {
    } else {
      hide Booked, Gated, CandleStep;
      var n := |items| - 1;
      var m := Run(s, items[..n]).machine;
      RunKeepsBooks(s, items[..n]);
      match items[n]
      case Bar(candle) => StepKeepsBooks(s, m, candle);
      case Gap(_, _, _) => ClosesDoNotMatter(s, m, []);
    }
  }

  // ---------- the books agree ----------

  lemma {:induction false} OutcomesPartition(trades: seq<Trade>)
    ensures Count(trades, WIN) + Count(trades, LOSS) + Count(trades, TIE) == |trades|
  {
    if trades != [] {
      OutcomesPartition(trades[..|trades| - 1]);
    }
  }

  /** The broker's balance, the risk manager's running total, the log and the stamps in it always
      agree, and every order placed is either logged once or the one still open. */
  lemma {:induction false} BooksAgree(s: Settings, items: seq<Item>)
    requires s.Valid()
    ensures var m := Run(s, items).machine;
            && m.risk.dailyPnl == SumPnl(m.log) == m.ledger.balance + AtStake(s, m) - s.startingBalance
            && (forall i :: 0 <= i < |m.log| ==>
                  m.log[i].balanceAfter == s.startingBalance + SumPnl(m.log[..i + 1]))
            && Count(m.log, WIN) + Count(m.log, LOSS) + Count(m.log, TIE) == |m.log|
            && |m.log| == m.ledger.nextId - 1 - (if m.open.Some? then 1 else 0)
  {
    hide Run, OrderId, SumPnl, RecordAll, ResolveOutcome, PnlFor, Count;
    var m := Run(s, items).machine;
    RunKeepsBooks(s, items);
    DailyPnlIsTheSum(s.RiskLimits(), m.log);
    OutcomesPartition(m.log);
    forall i | 0 <= i < |m.log|
      ensures m.log[i].balanceAfter == s.startingBalance + SumPnl(m.log[..i + 1])
    {
      assert Entry(s, m, i);
      assert m.log[..i + 1] == m.log[..i] + [m.log[i]];
      AppendTrade(s.RiskLimits(), m.log[..i], m.log[i]);
    }
  }

  // ---------- every order and trade in plain numbers ----------

  /** An order of this session: its number, its settings, a minute or five, and the entry price. */
  ghost predicate OrderOf(s: Settings, ack: OrderAck, n: nat) {
    && ack.orderId == OrderId(n)
    && ack.request.asset == s.asset && ack.request.stake == s.stakeAmount > 0.0
    && ack.request.payoutRate == s.payoutRate
    && ack.request.expiryS == s.defaultExpiryS && (s.defaultExpiryS == 60 || s.defaultExpiryS == 300)
    && ack.expiryAt == ack.request.openedAt + s.defaultExpiryS
    && ack.entryPrice == 100.0
  }

  lemma OwnOrderInPlainTerms(s: Settings, ack: OrderAck, n: nat)
    requires OwnOrder(s, ack, n) && s.stakeAmount > 0.0 && s.defaultExpiryS in SUPPORTED_EXPIRY_SECONDS
    ensures OrderOf(s, ack, n)
  {
    hide OrderId;
  }

  /** On every run, the i-th trade is the i-th order judged at its prices, and the balance stamped on it
      is the start with all results so far; an order still open is the next one. */
  lemma {:induction false} RunInPlainTerms(s: Settings, items: seq<Item>)
    requires s.Valid()
    ensures var m := Run(s, items).machine;
            && (forall i :: 0 <= i < |m.log| ==>
                  && OrderOf(s, m.log[i].ack, i + 1) && Judged(m.log[i])
                  && m.log[i].balanceAfter == s.startingBalance + SumPnl(m.log[..i + 1]))
            && (m.open.Some? ==> OrderOf(s, m.open.value, |m.log| + 1))
  {
    hide Run, OrderId, SumPnl, RecordAll, ResolveOutcome, PnlFor, Judged, OrderOf;
    var m := Run(s, items).machine;
    RunKeepsBooks(s, items);
    BooksAgree(s, items);
    forall i | 0 <= i < |m.log| ensures OrderOf(s, m.log[i].ack, i + 1) && Judged(m.log[i]) {
      assert Entry(s, m, i);
      OwnOrderInPlainTerms(s, m.log[i].ack, i + 1);
      TradeOfIsJudged(m.log[i].ack, m.log[i].expiryPrice,
                      s.startingBalance + SumPnl(m.log[..i]) - s.stakeAmount);
    }
    if m.open.Some? {
      OwnOrderInPlainTerms(s, m.open.value, |m.log| + 1);
    }
  }

  // ---------- the drawdown bound ----------

  function Max(a: real, b: real): real {
    if a >= b then a else b
  }

  /** The most one trade can lose: its stake, or the "profit" when the payout rate is below -1. */
  function WorstLoss(s: Settings): real {
    Max(Max(s.stakeAmount, -(s.stakeAmount * s.payoutRate)), 0.0)
  }

  lemma PnlAtLeastMinusWorst(s: Settings, outcome: Outcome)
    ensures PnlFor(outcome, s.stakeAmount, s.payoutRate) >= -WorstLoss(s)
  {
  }

  lemma FreshIsActive(l: Limits)
    ensures RecordAll(l, []) == FRESH_BOOK
  {
  }

  lemma DailyLimitIsAFraction(s: Settings)
    ensures s.RiskLimits().DailyLossLimit() == -(s.maxDailyLossPct * s.startingBalance)
  {
  }

  /** While the breaker is active, realised losses are within the daily limit. */
  lemma ActiveMeansWithinLimit(l: Limits, trades: seq<Trade>)
    requires RecordAll(l, trades).state == ACTIVE
    ensures SumPnl(trades) >= -Max(-l.DailyLossLimit(), 0.0)
  {
    DailyPnlIsTheSum(l, trades);
  }

  /** Realised losses never pass the daily limit by more than one worst trade, and not at all while
      a position is open. */
  lemma {:induction false} DrawdownOfLog(s: Settings, items: seq<Item>)
    requires s.Valid()
    ensures var m := Run(s, items).machine;
            SumPnl(m.log) >= -Max(s.maxDailyLossPct * s.startingBalance, 0.0)
                             - (if m.open.Some? then 0.0 else WorstLoss(s))
  {
    hide Run, OrderId, SumPnl, RecordAll, RecordTrade, ResolveOutcome, PnlFor;
    var l, m := s.RiskLimits(), Run(s, items).machine;
    DailyLimitIsAFraction(s);
    RunKeepsBooks(s, items);
    if m.risk.state == ACTIVE {
      ActiveMeansWithinLimit(l, m.log);
    } else {
      FreshIsActive(l);
      var n := |m.log| - 1;
      assert Entry(s, m, n) && WasActive(s, m.log, n);
      ActiveMeansWithinLimit(l, m.log[..n]);
      assert m.log == m.log[..n] + [m.log[n]];
      AppendTrade(l, m.log[..n], m.log[n]);
      PnlAtLeastMinusWorst(s, m.log[n].outcome);
    }
  }

  /** On every run, whatever the settings, the balance stays above the starting balance less the
      daily limit less one worst trade, even while a stake is locked. */
  lemma {:induction false} DrawdownIsBounded(s: Settings, items: seq<Item>)
    requires s.Valid()
    ensures var m := Run(s, items).machine;
            m.ledger.balance >= s.startingBalance - Max(s.maxDailyLossPct * s.startingBalance, 0.0) - WorstLoss(s)
  {
    hide Run, OrderId, SumPnl;
    DrawdownOfLog(s, items);
    RunKeepsBooks(s, items);
  }

  /** With a payout rate of at least -1 the overshoot past the limit is at most one stake, and an
      account that starts solvent stays solvent. */
  lemma {:induction false} OvershootIsOneStake(s: Settings, items: seq<Item>)
    requires s.Valid() && s.payoutRate >= -1.0 && s.stakeAmount > 0.0
    ensures var m := Run(s, items).machine;
            && m.ledger.balance
               >= s.startingBalance - Max(s.maxDailyLossPct * s.startingBalance, 0.0) - s.stakeAmount
            && (s.startingBalance >= 0.0 ==> m.ledger.balance >= 0.0)
  {
    hide Run;
    DrawdownIsBounded(s, items);
    PnlAtLeastMinusStake(WIN, s.stakeAmount, s.payoutRate);
    if s.startingBalance >= 0.0 {
      SolventForever(s, items);
    }
  }

  lemma SettlingPaysNonNegative(s: Settings, m: Machine, c: Candle)
    requires Booked(s, m) && s.payoutRate >= -1.0
    requires m.open.Some? ==> s.stakeAmount > 0.0
    ensures MaybeSettle(s, m, c).ledger.balance >= m.ledger.balance
  {
    hide OrderId, SumPnl, Entry, ResolveOutcome, PnlFor;
    if Expired(m, c) {
      var ack := m.open.value;
      PnlAtLeastMinusStake(ResolveOutcome(ack.request.direction, ack.entryPrice, c.close),
                           s.stakeAmount, s.payoutRate);
    }
  }

  lemma OpeningIsAffordable(s: Settings, m: Machine, c: Candle, signal: Signal)
    requires m.ledger.balance >= 0.0
    ensures MaybeOpen(s, m, c, signal).0.ledger.balance >= 0.0
  {
    hide OrderId;
  }

  lemma {:induction false} SolventForever(s: Settings, items: seq<Item>)
    requires s.Valid() && s.payoutRate >= -1.0 && s.startingBalance >= 0.0
    ensures Run(s, items).machine.ledger.balance >= 0.0
  {
    if items != [] {
      var n := |items| - 1;
      var m := Run(s, items[..n]).machine;
      SolventForever(s, items[..n]);
      RunKeepsBooks(s, items[..n]);
      hide Booked, MaybeSettle, MaybeOpen, SignalFor, RecordAll;
      if items[n].Bar? {
        var c := items[n].candle;
        SettlingPaysNonNegative(s, m, c);
        var settled := MaybeSettle(s, m, c);
        var fed := settled.(closes := settled.closes + [c.close]);
        var signal := SignalFor(s.SmaPeriods(), fed.closes, c);
        if signal.Some? {
          OpeningIsAffordable(s, fed, c, signal.value);
        }
      }
    }
  }

  lemma ActiveMeansStrictlyWithinLimit(l: Limits, trades: seq<Trade>)
    requires RecordAll(l, trades).state == ACTIVE && l.DailyLossLimit() < 0.0
    ensures SumPnl(trades) > l.DailyLossLimit()
  {
    DailyPnlIsTheSum(l, trades);
  }

  /** With a positive daily limit the bound is never reached: the breaker already halts at the limit. */
  lemma {:induction false} DrawdownIsStrict(s: Settings, items: seq<Item>)
    requires s.Valid() && s.maxDailyLossPct * s.startingBalance > 0.0
    ensures Run(s, items).machine.ledger.balance
          > s.startingBalance - s.maxDailyLossPct * s.startingBalance - WorstLoss(s)
  {
    hide Run, OrderId, SumPnl, RecordAll, RecordTrade, ResolveOutcome, PnlFor, WorstLoss;
    var l, m := s.RiskLimits(), Run(s, items).machine;
    DailyLimitIsAFraction(s);
    RunKeepsBooks(s, items);
    WorstLossCoversStake(s);
    if m.risk.state == ACTIVE {
      ActiveMeansStrictlyWithinLimit(l, m.log);
    } else {
      FreshIsActive(l);
      var n := |m.log| - 1;
      assert Entry(s, m, n) && WasActive(s, m.log, n);
      ActiveMeansStrictlyWithinLimit(l, m.log[..n]);
      assert m.log == m.log[..n] + [m.log[n]];
      AppendTrade(l, m.log[..n], m.log[n]);
      PnlAtLeastMinusWorst(s, m.log[n].outcome);
    }
  }

  lemma WorstLossCoversStake(s: Settings)
    ensures WorstLoss(s) >= 0.0 && WorstLoss(s) >= s.stakeAmount
    ensures s.payoutRate >= -1.0 && s.stakeAmount > 0.0 ==> WorstLoss(s) == s.stakeAmount
  {
    if s.payoutRate >= -1.0 && s.stakeAmount > 0.0 {
      PnlAtLeastMinusStake(WIN, s.stakeAmount, s.payoutRate);
    }
  }

  // ---------- the halt ----------

  lemma {:induction false} HaltedExactlyWhenBreached(s: Settings, items: seq<Item>)
    requires s.Valid()
    ensures var l, m := s.RiskLimits(), Run(s, items).machine;
            && (m.risk.state == HALTED <==> Breached(l, m.log))
            && (m.risk.state == HALTED ==> m.open.None?)
            && (forall k :: 0 <= k < |m.log| ==> !Breached(l, m.log[..k]))
            && (m.risk.state == HALTED ==>
                  m.risk.haltReason == Some(if SumPnl(m.log) <= l.DailyLossLimit() then MAX_DAILY_LOSS
                                            else MAX_CONSECUTIVE_LOSSES))
  {
    var l, m := s.RiskLimits(), Run(s, items).machine;
    RunKeepsBooks(s, items);
    HaltLatches(l, m.log);
    assert m.log[..|m.log|] == m.log;
    forall k | 0 <= k < |m.log| ensures !Breached(l, m.log[..k]) {
      assert WasActive(s, m.log, k);
      NoBreachAtAll(l, m.log[..k]);
      assert m.log[..k][..k] == m.log[..k];
    }
    if m.risk.state == ACTIVE {
      NoBreachAtAll(l, m.log);
    } else {
      var k: nat :| FirstBreach(l, m.log, k);
      assert k == |m.log|;
    }
  }

  /** These trades lost the fraction of the starting balance, or too many in a row. */
  ghost predicate OverLimits(s: Settings, log: seq<Trade>) {
    && log != []
    && (-SumPnl(log) >= s.maxDailyLossPct * s.startingBalance
        || RecordAll(s.RiskLimits(), log).consecutiveLosses >= s.maxConsecutiveLosses)
  }

  /** A session is halted exactly when its log has just gone over the limits of its settings: never
      before, never later. */
  lemma {:induction false} HaltedExactlyOnBreach(s: Settings, items: seq<Item>)
    requires s.Valid()
    ensures var m := Run(s, items).machine;
            && (m.risk.state == HALTED <==> OverLimits(s, m.log))
            && (m.risk.state == HALTED ==> m.open.None?)
            && (forall k :: 0 <= k < |m.log| ==> !OverLimits(s, m.log[..k]))
            && (m.risk.state == HALTED ==>
                  m.risk.haltReason == Some(if -SumPnl(m.log) >= s.maxDailyLossPct * s.startingBalance
                                            then MAX_DAILY_LOSS else MAX_CONSECUTIVE_LOSSES))
  {
    hide Run, SumPnl, RecordAll, Breached;
    var l, m := s.RiskLimits(), Run(s, items).machine;
    HaltedExactlyWhenBreached(s, items);
    DailyLimitIsAFraction(s);
    BreachInPlainTerms(l, m.log);
    forall k | 0 <= k < |m.log| ensures !OverLimits(s, m.log[..k]) {
      BreachInPlainTerms(l, m.log[..k]);
    }
  }

  /** A halt is terminal and freezes the money: no later candle or gap places an order or changes
      the balance, the log, the order counter or the risk counters. */
  lemma {:induction false} HaltIsTerminal(s: Settings, items: seq<Item>, more: seq<Item>)
    requires s.Valid() && Run(s, items).machine.risk.state == HALTED
    ensures var m, m' := Run(s, items).machine, Run(s, items + more).machine;
            m.open.None? && m' == m.(closes := m'.closes)
  {
    RunKeepsBooks(s, items);
    if more == [] {
      assert items + more == items;
    } else {
      var n := |more| - 1;
      HaltIsTerminal(s, items, more[..n]);
      assert (items + more)[..|items + more| - 1] == items + more[..n];
    }
  }

  lemma StreakBeforeBreach(l: Limits, trades: seq<Trade>, t: Trade)
    requires !Breached(l, trades)
    ensures var limit := l.maxConsecutiveLosses;
            RecordAll(l, trades + [t]).consecutiveLosses <= if limit >= 1 then limit else 1
  {
    AppendTrade(l, trades, t);
    FreshIsActive(l);
    hide RecordAll, SumPnl, RecordTrade;
    StreakStep(l, RecordAll(l, trades), t);
  }

  /** No log ever holds a win-free stretch with more losses than the limit (at least one is allowed). */
  lemma {:induction false} LosingStreaksAreBounded(s: Settings, items: seq<Item>, i: nat, j: nat)
    requires s.Valid()
    requires i <= j <= |Run(s, items).machine.log| && WinFree(Run(s, items).machine.log[i..j])
    ensures var limit := s.maxConsecutiveLosses;
            Count(Run(s, items).machine.log[i..j], LOSS) <= if limit >= 1 then limit else 1
  {
    hide Run, RecordAll, Breached, SumPnl;
    var l, log := s.RiskLimits(), Run(s, items).machine.log;
    if i < j {
      hide Count;
      HaltedExactlyWhenBreached(s, items);
      assert !Breached(l, log[..j - 1]);
      assert log[..j][i..] == log[i..j];
      StreakGrowsByLosses(l, log[..j], i);
      assert log[..j] == log[..j - 1] + [log[j - 1]];
      StreakBeforeBreach(l, log[..j - 1], log[j - 1]);
    }
  }
}
