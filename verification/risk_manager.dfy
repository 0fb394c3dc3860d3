/** The per-session circuit breaker (src/botafuturo/domain/risk/manager.py). */
module Risk {
  import opened Models

  datatype RiskState = ACTIVE | HALTED

  datatype HaltReason = MAX_DAILY_LOSS | MAX_CONSECUTIVE_LOSSES | INSUFFICIENT_BALANCE

  datatype Limits = Limits(dayStartBalance: real, maxDailyLossPct: real, maxConsecutiveLosses: int) {
    /** The running profit at or below which the day is over. */
    function DailyLossLimit(): real {
      -maxDailyLossPct * dayStartBalance
    }
  }

  datatype RiskBook = RiskBook(
    state: RiskState, haltReason: Option<HaltReason>, dailyPnl: real, consecutiveLosses: nat)

  const FRESH_BOOK := RiskBook(ACTIVE, None, 0.0, 0)

  function RecordTrade(l: Limits, r: RiskBook, trade: Trade): RiskBook {
    var pnl := r.dailyPnl + trade.pnl;
    var losses :=
      match trade.outcome
      case WIN => 0
      case LOSS => r.consecutiveLosses + 1
      case TIE => r.consecutiveLosses;
    if r.state == HALTED then RiskBook(HALTED, r.haltReason, pnl, losses)
    else if pnl <= l.DailyLossLimit() then RiskBook(HALTED, Some(MAX_DAILY_LOSS), pnl, losses)
    else if losses >= l.maxConsecutiveLosses then RiskBook(HALTED, Some(MAX_CONSECUTIVE_LOSSES), pnl, losses)
    else RiskBook(ACTIVE, r.haltReason, pnl, losses)
  }

  function MayOpen(r: RiskBook, stake: real, currentBalance: real): (bool, Option<HaltReason>) {
    if r.state == HALTED then (false, r.haltReason)
    else if stake > currentBalance then (false, Some(INSUFFICIENT_BALANCE))
    else (true, None)
  }

  class RiskManager {
    const limits: Limits
    var state: RiskState
    var haltReason: Option<HaltReason>
    var dailyPnl: real
    var consecutiveLosses: nat

    constructor (limits: Limits)
      ensures this.limits == limits
      ensures Book() == FRESH_BOOK
    {
      this.limits := limits;
      state, haltReason, dailyPnl, consecutiveLosses := ACTIVE, None, 0.0, 0;
    }

    function Book(): RiskBook
      reads this
    {
      RiskBook(state, haltReason, dailyPnl, consecutiveLosses)
    }

    method CanOpen(stake: real, currentBalance: real) returns (allowed: bool, reason: Option<HaltReason>)
      ensures (allowed, reason) == MayOpen(Book(), stake, currentBalance)
    {
      if state == HALTED {
        return false, haltReason;
      }
      if stake > currentBalance {
        return false, Some(INSUFFICIENT_BALANCE);
      }
      return true, None;
    }

    method Record(trade: Trade)
      modifies this
      ensures Book() == RecordTrade(limits, old(Book()), trade)
    {
      dailyPnl := dailyPnl + trade.pnl;
      if trade.outcome == WIN {
        consecutiveLosses := 0;
      } else if trade.outcome == LOSS {
        consecutiveLosses := consecutiveLosses + 1;
      }
      if state == HALTED {
        return;
      }
      if dailyPnl <= limits.DailyLossLimit() {
        state, haltReason := HALTED, Some(MAX_DAILY_LOSS);
      } else if consecutiveLosses >= limits.maxConsecutiveLosses {
        state, haltReason := HALTED, Some(MAX_CONSECUTIVE_LOSSES);
      }
    }
  }

  // ---------- what the counters mean over a whole history ----------

  function RecordAll(l: Limits, trades: seq<Trade>): RiskBook {
    if trades == [] then FRESH_BOOK
    else RecordTrade(l, RecordAll(l, trades[..|trades| - 1]), trades[|trades| - 1])
  }

  function SumPnl(trades: seq<Trade>): real {
    if trades == [] then 0.0 else SumPnl(trades[..|trades| - 1]) + trades[|trades| - 1].pnl
  }

  function Count(trades: seq<Trade>, outcome: Outcome): nat {
    if trades == [] then 0
    else Count(trades[..|trades| - 1], outcome) + (if trades[|trades| - 1].outcome == outcome then 1 else 0)
  }

  ghost predicate WinFree(trades: seq<Trade>) {
    forall t :: t in trades ==> t.outcome != WIN
  }

  lemma {:induction false} DailyPnlIsTheSum(l: Limits, trades: seq<Trade>)
    ensures RecordAll(l, trades).dailyPnl == SumPnl(trades)
  {
    if trades != [] {
      DailyPnlIsTheSum(l, trades[..|trades| - 1]);
    }
  }

  lemma StreakStep(l: Limits, r: RiskBook, t: Trade)
    ensures RecordTrade(l, r, t).consecutiveLosses
         == match t.outcome
            case WIN => 0
            case LOSS => r.consecutiveLosses + 1
            case TIE => r.consecutiveLosses
  {
  }

  /** Over a win-free stretch the streak grows by exactly the losses in it; ties do not count. */
  lemma {:induction false} StreakGrowsByLosses(l: Limits, trades: seq<Trade>, i: nat)
    requires i <= |trades| && WinFree(trades[i..])
    ensures RecordAll(l, trades).consecutiveLosses
         == RecordAll(l, trades[..i]).consecutiveLosses + Count(trades[i..], LOSS)
  {
    var n := |trades| - 1;
    if i == |trades| {
      assert trades[..i] == trades && trades[i..] == [];
    } else {
      hide RecordTrade;
      StreakStep(l, RecordAll(l, trades[..n]), trades[n]);
      assert trades[n] == trades[i..][n - i];
      assert trades[i..][..n - i] == trades[..n][i..];
      assert trades[..n][..i] == trades[..i];
      assert trades[i..][n - i] == trades[n];
      assert WinFree(trades[..n][i..]);
      StreakGrowsByLosses(l, trades[..n], i);
    }
  }

  /** The loss-streak counter is the number of losses since the last win, or since the start. */
  lemma StreakIsLossesSinceLastWin(l: Limits, trades: seq<Trade>, i: nat)
    requires i <= |trades| && WinFree(trades[i..])
    requires i == 0 || trades[i - 1].outcome == WIN
    ensures RecordAll(l, trades).consecutiveLosses == Count(trades[i..], LOSS)
  {
    StreakGrowsByLosses(l, trades, i);
    assert i > 0 ==> RecordAll(l, trades[..i])
                     == RecordTrade(l, RecordAll(l, trades[..i][..i - 1]), trades[..i][i - 1]);
  }

  ghost predicate Breached(l: Limits, trades: seq<Trade>) {
    && trades != []
    && (SumPnl(trades) <= l.DailyLossLimit()
        || RecordAll(l, trades).consecutiveLosses >= l.maxConsecutiveLosses)
  }

  /** On the settings' own numbers: the losses so far are at least that fraction of the day's starting
      balance, or as many in a row as the limit. */
  lemma BreachInPlainTerms(l: Limits, trades: seq<Trade>)
    ensures Breached(l, trades) <==>
              && trades != []
              && (-SumPnl(trades) >= l.maxDailyLossPct * l.dayStartBalance
                  || RecordAll(l, trades).consecutiveLosses >= l.maxConsecutiveLosses)
  {
    hide SumPnl, RecordAll;
  }

  /** The very first trade halts exactly when it loses the fraction of the starting balance, or when no
      loss in a row is tolerated. */
  lemma FirstTradeHalts(l: Limits, t: Trade)
    ensures RecordTrade(l, FRESH_BOOK, t).state == HALTED <==>
              || -t.pnl >= l.maxDailyLossPct * l.dayStartBalance
              || (if t.outcome == LOSS then 1 else 0) >= l.maxConsecutiveLosses
  {
  }

  ghost predicate FirstBreach(l: Limits, trades: seq<Trade>, k: nat) {
    && k <= |trades|
    && Breached(l, trades[..k])
    && forall j :: 0 <= j < k ==> !Breached(l, trades[..j])
  }

  lemma FirstBreachOfFront(l: Limits, trades: seq<Trade>, n: nat, k: nat)
    requires k <= n <= |trades|
    ensures FirstBreach(l, trades[..n], k) <==> FirstBreach(l, trades, k)
  {
    hide Breached;
    assert forall j :: 0 <= j <= k ==> trades[..n][..j] == trades[..j];
  }

  lemma NothingBreached(l: Limits)
    ensures RecordAll(l, []) == FRESH_BOOK && !Breached(l, [])
  {
  }

  /** What the last trade does to the breaker. */
  lemma LastTradeHalts(l: Limits, trades: seq<Trade>)
    requires trades != []
    ensures var front, now := RecordAll(l, trades[..|trades| - 1]), RecordAll(l, trades);
            if front.state == HALTED then now.state == HALTED && now.haltReason == front.haltReason
            else
              && (now.state == HALTED <==> Breached(l, trades))
              && now.haltReason == if !Breached(l, trades) then front.haltReason
                                   else if SumPnl(trades) <= l.DailyLossLimit() then Some(MAX_DAILY_LOSS)
                                   else Some(MAX_CONSECUTIVE_LOSSES)
  {
    DailyPnlIsTheSum(l, trades);
  }

  /** The breaker latches: it is halted exactly when some prefix of the history breached a limit,
      and the reason it keeps is the one of the first such prefix, the daily loss taking precedence. */
  lemma {:induction false} HaltLatches(l: Limits, trades: seq<Trade>)
    ensures RecordAll(l, trades).state == HALTED <==> exists k: nat :: FirstBreach(l, trades, k)
    ensures RecordAll(l, trades).state == ACTIVE <==> RecordAll(l, trades).haltReason == None
    ensures forall k: nat :: FirstBreach(l, trades, k) ==>
              RecordAll(l, trades).haltReason
              == Some(if SumPnl(trades[..k]) <= l.DailyLossLimit() then MAX_DAILY_LOSS
                      else MAX_CONSECUTIVE_LOSSES)
    decreases |trades|
  {
    hide RecordAll, SumPnl, Breached;
    if trades == [] {
      NothingBreached(l);
      assert trades[..0] == [];
    } else {
      var n := |trades| - 1;
      HaltLatches(l, trades[..n]);
      LastTradeHalts(l, trades);
      assert trades[..n + 1] == trades;
      forall k: nat | k <= n
        ensures FirstBreach(l, trades[..n], k) <==> FirstBreach(l, trades, k)
        ensures trades[..n][..k] == trades[..k]
      {
        FirstBreachOfFront(l, trades, n, k);
      }
      if RecordAll(l, trades[..n]).state == HALTED {
        var k: nat :| FirstBreach(l, trades[..n], k);
        assert FirstBreach(l, trades, k);
        assert forall j: nat :: FirstBreach(l, trades, j) ==> j == k;
      } else {
        NoBreachAtAll(l, trades[..n]);
        assert forall k :: 0 <= k <= n ==> !Breached(l, trades[..k]);
        assert Breached(l, trades) ==> FirstBreach(l, trades, n + 1);
      }
    }
  }

  lemma {:induction false} NoBreachAtAll(l: Limits, trades: seq<Trade>)
    requires RecordAll(l, trades).state == ACTIVE
    ensures forall k :: 0 <= k <= |trades| ==> !Breached(l, trades[..k])
  {
    if trades != [] {
      var n := |trades| - 1;
      NoBreachAtAll(l, trades[..n]);
      DailyPnlIsTheSum(l, trades);
      assert trades[..n + 1] == trades;
      assert forall k :: 0 <= k <= n ==> trades[..n][..k] == trades[..k];
    }
  }
}
