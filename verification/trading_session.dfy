/** The trading session and its wiring (src/botafuturo/domain/session.py, src/botafuturo/cli/wire.py).

    `CandleStep` advances the value of a whole session by one candle; the class `TradingSession`
    does the same in place, through the collaborators the composition root gives it. */
module Session {
  import opened Models
  import opened PaperBroker
  import opened Risk
  import opened Strategy

  /** The part of `Settings` the wiring uses, with the instrument. */
  datatype Settings = Settings(
    asset: string, startingBalance: real, payoutRate: real, stakeAmount: real,
    maxDailyLossPct: real, maxConsecutiveLosses: int, defaultExpiryS: int,
    smaFastPeriod: int, smaSlowPeriod: int)
  {
    function RiskLimits(): Limits {
      Limits(startingBalance, maxDailyLossPct, maxConsecutiveLosses)
    }

    function SmaPeriods(): Periods {
      Periods(smaFastPeriod, smaSlowPeriod)
    }

    predicate Valid() {
      SmaPeriods().Valid()
    }
  }

  /** The whole mutable state behind one wired session. `closes` is every close since the last
      reset, of which the strategy itself keeps only a bounded window. */
  datatype Machine = Machine(
    ledger: Ledger, risk: RiskBook, closes: seq<real>, open: Option<OrderAck>, log: seq<Trade>)

  function Start(s: Settings): Machine {
    Machine(Ledger(s.startingBalance, 1, map[]), FRESH_BOOK, [], None, [])
  }

  predicate Expired(m: Machine, c: Candle) {
    m.open.Some? && c.openTime >= m.open.value.expiryAt
  }

  function MaybeSettle(s: Settings, m: Machine, c: Candle): Machine {
    if !Expired(m, c) then m
    else
      var (ledger, trade) := SettleOrder(m.ledger, m.open.value, Quote(c.asset, c.openTime, c.close));
      Machine(ledger, RecordTrade(s.RiskLimits(), m.risk, trade), m.closes, None, m.log + [trade])
  }

  function Request(s: Settings, d: Direction, openedAt: int): OrderRequest {
    OrderRequest(s.asset, d, s.stakeAmount, s.defaultExpiryS, openedAt, s.payoutRate)
  }

  function MaybeOpen(s: Settings, m: Machine, c: Candle, signal: Signal): (Machine, Option<Error>) {
    if !MayOpen(m.risk, s.stakeAmount, m.ledger.balance).0 then (m, None)
    else
      var (ledger, r) := PlaceOrder(m.ledger, Request(s, signal.direction, c.openTime));
      match r
      case Err(e) => (m.(ledger := ledger), Some(e))
      case Ok(ack) => (m.(ledger := ledger, open := Some(ack)), None)
  }

  /** One candle: settle an expired position, feed the strategy, possibly open. An exception leaves
      whatever was done before it in place. */
  function CandleStep(s: Settings, m: Machine, c: Candle): (Machine, Option<Error>)
    requires s.Valid()
  {
    if c.asset != s.asset then (m, Some(WrongAsset))
    else
      var settled := MaybeSettle(s, m, c);
      var fed := settled.(closes := settled.closes + [c.close]);
      var signal := SignalFor(s.SmaPeriods(), fed.closes, c);
      if signal.Some? && fed.open.None? then MaybeOpen(s, fed, c, signal.value) else (fed, None)
  }

  /** The append-only sink `log_trade` writes to. */
  class TradeLog {
    var trades: seq<Trade>

    constructor ()
      ensures trades == []
    {
      trades := [];
    }

    method Append(trade: Trade)
      modifies this
      ensures trades == old(trades) + [trade]
    {
      trades := trades + [trade];
    }
  }

  class TradingSession {
    const settings: Settings
    const strategy: MovingAverageCrossoverStrategy
    const riskManager: RiskManager
    const broker: PaperBrokerAdapter
    const tradeLog: TradeLog
    var open: Option<OrderAck>

    ghost function Repr(): set<object> {
      {this, strategy, riskManager, broker, broker.account, tradeLog}
    }

    ghost predicate Valid()
      reads Repr()
    {
      && settings.Valid()
      && strategy.Valid() && strategy.periods == settings.SmaPeriods()
      && riskManager.limits == settings.RiskLimits()
    }

    ghost function State(): Machine
      reads Repr()
    {
      Machine(broker.State(), riskManager.Book(), strategy.history, open, tradeLog.trades)
    }

    constructor (settings: Settings, strategy: MovingAverageCrossoverStrategy, riskManager: RiskManager,
                 broker: PaperBrokerAdapter, tradeLog: TradeLog)
      ensures this.settings == settings && this.strategy == strategy && this.riskManager == riskManager
      ensures this.broker == broker && this.tradeLog == tradeLog && open == None
    {
      this.settings, this.strategy, this.riskManager := settings, strategy, riskManager;
      this.broker, this.tradeLog, open := broker, tradeLog, None;
    }

    /** The composition root: one starting balance for both the broker and the risk manager. */
    static method Build(settings: Settings) returns (r: Result<TradingSession, Error>)
      ensures r.Ok? <==> settings.Valid()
      ensures r.Ok? ==> fresh(r.value.Repr()) && r.value.Valid()
                        && r.value.settings == settings && r.value.State() == Start(settings)
      ensures r.Err? ==> r.error == BadPeriods
    {
      var strategy := MovingAverageCrossoverStrategy.Create(settings.smaFastPeriod, settings.smaSlowPeriod);
      if strategy.Err? {
        return Err(strategy.error);
      }
      var riskManager := new RiskManager(settings.RiskLimits());
      var broker := new PaperBrokerAdapter(settings.startingBalance);
      var tradeLog := new TradeLog();
      var session := new TradingSession(settings, strategy.value, riskManager, broker, tradeLog);
      return Ok(session);
    }

    method OnCandle(candle: Candle) returns (error: Option<Error>)
      requires Valid()
      modifies Repr()
      ensures Valid()
      ensures (State(), error) == CandleStep(settings, old(State()), candle)
    {
      if candle.asset != settings.asset {
        return Some(WrongAsset);
      }
      SettleIfExpired(candle);
      var signal := strategy.OnCandle(candle);
      if signal.Some? && open.None? {
        error := OpenIfAllowed(candle, signal.value);
        return;
      }
      return None;
    }

    /** `_maybe_settle` */
    method SettleIfExpired(candle: Candle)
      requires Valid()
      modifies Repr()
      ensures Valid()
      ensures State() == MaybeSettle(settings, old(State()), candle)
      ensures strategy.closes == old(strategy.closes)
    {
      if open.None? {
        return;
      }
      if candle.openTime < open.value.expiryAt {
        return;
      }
      var quote := Quote(candle.asset, candle.openTime, candle.close);
      var trade := broker.Settle(open.value, quote);
      riskManager.Record(trade);
      tradeLog.Append(trade);
      open := None;
    }

    /** `_maybe_open` */
    method OpenIfAllowed(candle: Candle, signal: Signal) returns (error: Option<Error>)
      requires Valid()
      modifies Repr()
      ensures Valid()
      ensures (State(), error) == MaybeOpen(settings, old(State()), candle, signal)
    {
      var currentBalance := broker.account.amount;
      var allowed, reason := riskManager.CanOpen(settings.stakeAmount, currentBalance);
      if !allowed {
        return None;
      }
      var request := OrderRequest(
        settings.asset, signal.direction, settings.stakeAmount, settings.defaultExpiryS,
        candle.openTime, settings.payoutRate);
      var ack := broker.Place(request);
      if ack.Err? {
        return Some(ack.error);
      }
      open := Some(ack.value);
      return None;
    }
  }

  // ---------- a session over a stream of items ----------

  /** How far `run_session` has got: the machine, the exception that ended it, the candles processed. */
  datatype Progress = Progress(machine: Machine, error: Option<Error>, processed: nat)

  function Feed(s: Settings, p: Progress, item: Item): Progress
    requires s.Valid()
  {
    if p.error.Some? then p
    else
      match item
      case Gap(_, _, _) => p.(machine := p.machine.(closes := []))
      case Bar(candle) =>
        var (m, e) := CandleStep(s, p.machine, candle);
        Progress(m, e, if e.None? then p.processed + 1 else p.processed)
  }

  function Run(s: Settings, items: seq<Item>): Progress
    requires s.Valid()
  {
    if items == [] then Progress(Start(s), None, 0)
    else Feed(s, Run(s, items[..|items| - 1]), items[|items| - 1])
  }

  /** An exception ends the run: whatever would have followed has no effect. */
  lemma {:induction false} ErrorsAreFinal(s: Settings, items: seq<Item>, more: seq<Item>)
    requires s.Valid() && Run(s, items).error.Some?
    ensures Run(s, items + more) == Run(s, items)
  {
    if more == [] {
      assert items + more == items;
    } else {
      var n := |more| - 1;
      ErrorsAreFinal(s, items, more[..n]);
      assert (items + more)[..|items + more| - 1] == items + more[..n];
    }
  }
}
