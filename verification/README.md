# botafuturo: a verified model of the paper-trading pipeline

botafuturo streams live candles for one instrument, feeds them to a moving-average crossover
strategy, opens paper binary-option positions, settles them, and stops trading when a circuit
breaker trips. This project models that pipeline in Dafny, component by component, and proves what
it keeps over whole runs.

Each stateful component of the program is a class whose methods are proved against a function on
values, and the laws are proved about those functions:

| file | component |
|---|---|
| `models.dfy`, `settlement.dfy` | domain values, trade outcome and profit |
| `paper_broker.dfy` | balance and paper broker: placing and settling any number of orders |
| `risk_manager.dfy` | circuit breaker |
| `ma_crossover.dfy` | crossover strategy over a bounded deque |
| `trading_session.dfy` | wiring and the session, one candle at a time; runs over stream items |
| `session_laws.dfy`, `session_schedule.dfy` | what every run keeps: books, drawdown, halt, schedule, exceptions |
| `drawdown.dfy` | how sharp the drawdown bound is |
| `mirror.dfy` | mirror symmetry of sessions and of live runs |
| `redaction.dfy`, `report.dfy` | secret redaction, trade journal and its summary, break-even |
| `closed_bars.dfy` | meaning of the closed-candle stream, without the loop |
| `backoff.dfy` | reconnect delays and the attempt counter |
| `exnova.dfy`, `candle_stream.dfy` | WebSocket client, adapter and generator, in place |
| `run_session.dfy`, `pipeline.dfy` | one whole program run, and the laws of the composition |

Money and prices are exact reals, times whole seconds. The network is a script of how each coming
attempt to connect is met: the login fails, the server cannot be reached (an `OSError`) or rejects the
upgrade to a WebSocket (another exception), or a transport opens that accepts so many frames before `send` raises and delivers so many messages before it is lost. Once the script is
used up no transport opens any more. Connections may thus fail at the login, at opening, at either frame
they are sent, in the handshake, and after any message. A generator is an object resumed once per item.

What those functions compute is stated, in turn, in the amounts, prices and message fields the program
itself handles, without the helpers they are written with: see the lemmas named `...InPlainTerms`,
`SignalInSums`, `OpensExactlyAtOpportunities` and `JournalTellsTrade`.

## Where the code does not do what is promised

* `run_session` promises to disconnect whatever happens. `ExnovaWsClient.connect` stores the transport
  before the authentication is sent and answered, and the adapter's `disconnect` does nothing while not
  connected, so a transport on which `connect` fails stays open. `RunSessions.RunSession` states the
  exact condition on the settings and the network (`StaysOpen`) and that every other transport is closed;
  `EndsUnauthenticatedExactlyWhen` says which scripts come to it, and `RefusedHandshakeLeaks` gives the
  smallest: one transport that answers with a refusal.
* The redaction module promises that registered secrets never come out. `HiddenExactlyWhenSeparate`
  shows that the replacement loop hides a secret in every text, beside every other secret and in every
  iteration order if and only if the secret cannot overlap the marker `***REDACTED***`. With the secrets
  "RED" and "q", the text "q" comes out with "RED" in it (`MarkerSpellsRed`).
* The journal redacts the word for an outcome like any other string. `ReportMatchesLog` shows that the
  report counts an outcome correctly when no secret occurs in its word, and otherwise counts zero; with
  the secret "os" a lost trade is not counted as one (`SecretHidesLoss`). The reported win rate then
  decides nothing (`SpoiledRateIsFixed`).
* `backoff_delay` documents its argument as 0-indexed; the stream passes 1 at the first loss. The
  model follows the stream.
* The repository's README calls the Exnova adapter empty. The model follows the code.

## Model

| member | source | states |
|---|---|---|
| PaperBroker.Balance.Debit | src/botafuturo/adapters/paper/balance.py:21-32 | fails exactly when the amount exceeds the balance and then changes nothing |
| PaperBroker.OrderIdInjective | src/botafuturo/adapters/paper/broker.py:59 | an id is "paper-order-" and the decimal number of the order, so ids never collide and the settled dictionary can be keyed by them |
| PaperBroker.PaperBrokerAdapter.Place | src/botafuturo/adapters/paper/broker.py:51-67 | places in place what `PlaceOrder` says, errors included; the debit inside it never fails |
| PaperBroker.PaperBrokerAdapter.Settle | src/botafuturo/adapters/paper/broker.py:69-90 | settles in place what `SettleOrder` says; an order already settled answers its first trade |
| PaperBroker.PlacedInPlainTerms | src/botafuturo/adapters/paper/broker.py:51-67 | an order is accepted iff its stake is positive and covered and its expiry is 60 or 300 seconds; a refused one changes nothing; an accepted one gets the next id, expires that much later, is entered at 100 and locks its stake |
| PaperBroker.SettledInPlainTerms | src/botafuturo/domain/settlement.py:9-23 | a first settlement is a tie iff the quoted price is exactly the entry price and a win iff it went the way of the order; it pays stake and result, which is stake times payout, minus the stake, or nothing |
| PaperBroker.MoneyIsConserved | src/botafuturo/adapters/paper/broker.py:51-90 | under any interleaving of placing and settling, balance plus locked stakes is the start plus realised profit, and every recorded trade is that of its own issued order |
| PaperBroker.NeverOverdrawn | src/botafuturo/adapters/paper/broker.py:51-80 | under any interleaving the balance never goes negative |
| PaperBroker.SettlementIsFinal | src/botafuturo/adapters/paper/broker.py:69-71 | after any further calls, settling an order again with any quote answers its first trade and changes nothing |
| PaperBroker.SettlementOrderIrrelevant | src/botafuturo/adapters/paper/broker.py:69-90 | settling the same orders in any two orders gives the same balance, the same settled ids and the same verdicts |
| Risk.RiskManager.CanOpen | src/botafuturo/domain/risk/manager.py:60-73 | answer and reason, without changing the state |
| Risk.RiskManager.Record | src/botafuturo/domain/risk/manager.py:75-94 | updates counters and state in place as `RecordTrade` says |
| Risk.DailyPnlIsTheSum | src/botafuturo/domain/risk/manager.py:77 | the running total is the sum over the whole recorded history |
| Risk.StreakIsLossesSinceLastWin | src/botafuturo/domain/risk/manager.py:79-83 | the streak counter is the number of losses since the last win, ties ignored |
| Risk.HaltLatches | src/botafuturo/domain/risk/manager.py:85-94 | halted iff some prefix of the history breached a limit; the kept reason is that of the first such prefix, daily loss first |
| Strategy.MovingAverageCrossoverStrategy.Create | src/botafuturo/domain/strategy/ma_crossover.py:24-36 | succeeds iff 0 < fast < slow, with no history |
| Strategy.MovingAverageCrossoverStrategy.OnCandle | src/botafuturo/domain/strategy/ma_crossover.py:41-64 | the signal computed on the bounded deque is a function of all closes since the last reset |
| Strategy.WindowRefinesHistory | src/botafuturo/domain/strategy/ma_crossover.py:43-57 | the decision on the four deque slices equals the sign change of fast minus slow average on the full history |
| Strategy.SignalsAlternate | src/botafuturo/domain/strategy/ma_crossover.py:52-57 | strictly between two equal signals without a reset there is the opposite signal or a bar where the averages are equal |
| Strategy.SignalInSums | src/botafuturo/domain/strategy/ma_crossover.py:41-57 | without means: a signal is given iff the last fast and slow closes, summed up to the bar before and up to this one, cross when compared crosswise |
| Strategy.EveryValueCounts | src/botafuturo/domain/strategy/ma_crossover.py:71 | a sum takes every close of its slice, once |
| Strategy.SignalReflects | src/botafuturo/domain/strategy/ma_crossover.py:41-57 | reflecting every close about any price flips every signal |
| Session.TradingSession.Build | src/botafuturo/cli/wire.py:102-137 | wires fresh collaborators with one starting balance; fails iff the periods are invalid |
| Session.TradingSession.OnCandle | src/botafuturo/domain/session.py:48-66 | advances the whole session in place by one candle as `CandleStep` says, exceptions included |
| Session.ErrorsAreFinal | src/botafuturo/cli/run.py:43-64 | what follows an exception has no effect |
| SessionLaws.RunKeepsBooks | src/botafuturo/domain/session.py:68-95 | every reachable state has broker, position, log and risk manager telling one story |
| SessionLaws.BooksAgree | src/botafuturo/domain/session.py:68-79 | risk total, sum of the log and broker gain agree; every stamp is the start plus a prefix sum; outcomes and open order account for every order placed |
| SessionLaws.RunInPlainTerms | src/botafuturo/domain/session.py:68-95 | on every run the i-th trade is the i-th order, with the instrument, stake, payout rate and expiry of the settings and the entry price 100, judged by comparing its two prices, and stamped with the balance after it |
| SessionLaws.DrawdownOfLog | src/botafuturo/domain/risk/manager.py:88-94 | realised losses pass the daily limit, the set fraction of the starting balance, by at most one worst trade, and not at all while a position is open |
| SessionLaws.DrawdownIsBounded | src/botafuturo/domain/session.py:65-95 | for all settings the balance is at least start less limit less one worst trade, even with a stake locked |
| SessionLaws.DrawdownIsStrict | src/botafuturo/domain/risk/manager.py:88-91 | with a positive daily limit the balance stays strictly above the bound |
| Drawdown.BoundIsReachedExactlyWithoutLimit | src/botafuturo/domain/session.py:65-95 | whatever the payout rate, a tradable session that can pay one stake reaches the bound on some run iff its daily limit is not positive |
| Drawdown.BoundIsApproachedExactlyWhen | src/botafuturo/domain/risk/manager.py:79-94 | with a supported expiry and a positive limit of at most half the balance, some stake and run come within every margin of the bound iff the loss limit is at least 2, or at least 1 when the payout rate is negative; otherwise no stake comes nearer than the daily limit |
| SessionLaws.OvershootIsOneStake | src/botafuturo/domain/risk/manager.py:88-91 | with a payout rate of at least -1 the overshoot is at most one stake and a solvent account stays solvent |
| SessionLaws.HaltedExactlyOnBreach | src/botafuturo/domain/risk/manager.py:85-94 | a session is halted iff its log has just lost the set fraction of the starting balance, or as many trades in a row as the limit; then it is flat, and no proper prefix of the log had |
| SessionLaws.HaltIsTerminal | src/botafuturo/domain/risk/manager.py:69-70 | after a halt no candle or gap changes anything but the strategy's window |
| SessionLaws.LosingStreaksAreBounded | src/botafuturo/domain/risk/manager.py:79-94 | no log holds a win-free stretch with more losses than the limit |
| SessionSchedule.StrategySeesClosesSinceGap | src/botafuturo/cli/run.py:44-55 | the strategy's history is the closes since the last gap |
| SessionSchedule.RunIsScheduled | src/botafuturo/domain/session.py:61-95 | every order is opened as signalled at its own candle and settled in order, at most once, at the close of the first later candle at or past its expiry |
| SessionSchedule.OpensExactlyAtOpportunities | src/botafuturo/domain/session.py:61-95 | a run opens its orders exactly at the candles where it signals, no order is left open once an expired one is settled, the breaker is active after that and the balance covers the stake; so also on the candle that settles |
| SessionSchedule.HoldingIntervalsAreDisjoint | src/botafuturo/domain/session.py:65-79 | with times that never go back an order is opened no sooner than the previous one expired |
| SessionSchedule.OrderCountIsBounded | src/botafuturo/domain/session.py:65-95 | at most 1 + (last - first) / expiry orders |
| SessionSchedule.RunRaisesExactlyOnFault | src/botafuturo/domain/session.py:48-95 | a run raises iff it reaches a foreign candle or an attempt with a bad stake or expiry |
| SessionSchedule.RaisedRunIsScheduled | src/botafuturo/domain/session.py:61-95 | a run that raised has the state and schedule of its processed prefix, but for the strategy's history |
| SessionSchedule.TradableNeverRaises | src/botafuturo/adapters/paper/broker.py:52-61 | with a positive stake and a supported expiry no run on its own asset raises, and every candle is processed |
| SessionSchedule.UntradableNeverTrades | src/botafuturo/adapters/paper/broker.py:52-57 | otherwise no money ever moves |
| Mirror.SessionsAreMirrorSymmetric | src/botafuturo/domain/session.py:61-95 | reflecting all prices about the entry price mirrors the run: directions flip, all outcomes, profits, balances, counters and exceptions stay |
| Mirror.LiveRunsAreMirrorSymmetric | src/botafuturo/adapters/exnova/market_data.py:167-207 | the same for a live run whose pushed prices are reflected |
| Redaction.SecretRegistry.Register | src/botafuturo/adapters/logging/redaction.py:45-48 | adds exactly the nonempty value |
| Redaction.SecretRegistry.RedactText | src/botafuturo/adapters/logging/redaction.py:67-69 | the loop replaces every registered secret once, in some order |
| Redaction.SeparateSecretIsHidden | src/botafuturo/adapters/logging/redaction.py:67-69 | a registered secret that cannot overlap the marker does not occur in the result, for any text, other secrets and order |
| Redaction.HiddenExactlyWhenSeparate | src/botafuturo/adapters/logging/redaction.py:67-69 | and only such secrets are always hidden |
| Redaction.MarkerSpellsRed | src/botafuturo/adapters/logging/redaction.py:24-69 | the registered secret "RED" comes out of the text "q" when "q" is registered too: the result is "\*\*\*REDACTED\*\*\*" |
| Redaction.UnchangedExactlyWhenNoSecret | src/botafuturo/adapters/logging/redaction.py:67-69 | star-free text is unchanged iff no secret occurs in it |
| Redaction.ReplaceCutsAndJoins | src/botafuturo/adapters/logging/redaction.py:69 | replacing cuts a text at its leftmost occurrences, one after the other, and joins the same parts with the marker |
| Redaction.MappingIsRedacted | src/botafuturo/adapters/logging/redaction.py:84-94 | the walk keeps structure, keys and non-strings and clears such secrets from every text leaf |
| Redaction.CleanMappingIsKept | src/botafuturo/adapters/logging/redaction.py:84-94 | a value without secrets in its texts comes out as it was |
| Report.Summarize | src/botafuturo/cli/report.py:38-70 | raises iff some result is there and spells no decimal; otherwise counts each outcome word, sums the results as read back, and reports wins over decisive trades iff some trade was decisive |
| Report.JournalIsReadable | src/botafuturo/adapters/logging/journal.py:25-32 | whatever the secrets, every result the journal wrote reads back, so the report does not raise on it |
| Report.ReportMatchesLog | src/botafuturo/cli/wire.py:53-68 | the journal's net result is that of the log; an outcome is counted correctly if no secret occurs in its word and as zero otherwise |
| Report.UnspoiledReportCounts | src/botafuturo/cli/report.py:46-54 | in an unspoiled journal "win", "loss" and "tie" are counted as the log has them |
| Report.JournalTellsTrade | src/botafuturo/cli/wire.py:53-68 | round trip: where no secret occurs in its texts, the line written for a trade holds all its twelve fields, each under its key, with amounts that read back |
| Report.ReportAgreesWithBroker | src/botafuturo/cli/report.py:46-61 | on every run the report's net result is the broker's gain and its length the orders settled |
| Report.NetIsWinsLessLosses | src/botafuturo/domain/pnl.py:16-20 | a session's result is wins times payout less losses times stake |
| Report.BreakEven | src/botafuturo/domain/pnl.py:16-20 | on the log: in profit iff wins make up more than 1 / (1 + payout) of the decisive trades; losses are covered by wins, daily limit and one worst trade |
| Report.ReportedRateDecides | src/botafuturo/cli/report.py:60-70 | on the report, its words unspoiled: the reported result is positive iff the reported win rate is above 1 / (1 + payout), and zero if there is no rate |
| Report.SpoiledRateIsFixed | src/botafuturo/cli/report.py:60-61 | with a spoiled word any rate reported is 0 (for "win") or 1 (for "loss"), whatever the log |
| Report.SecretHidesLoss | src/botafuturo/cli/report.py:46-54 | with the secret "os" a lost trade is reported with its loss and without its outcome |
| ClosedBars.RunsAreMaximal | src/botafuturo/adapters/exnova/market_data.py:187-207 | the pushes of an epoch can be cut into maximal runs of equal open time |
| ClosedBars.MaximalRunsAreUnique | src/botafuturo/adapters/exnova/market_data.py:187-207 | in only one way |
| ClosedBars.ClosedMeansFinalStates | src/botafuturo/adapters/exnova/market_data.py:192-207 | the closed candles are the final pushes of all runs but the last |
| ClosedBars.BarsInPlainTerms | src/botafuturo/adapters/exnova/mapping.py:94-104 | the stream of an epoch in the fields of its messages: exactly the last push of each window that a push of another window follows is yielded, in order, with its own times, prices, volume and size |
| ClosedBars.ClosedBarsMoveForward | src/botafuturo/adapters/exnova/market_data.py:192-201 | if windows never go back, closed candles are strictly forward and before the window still forming |
| ClosedBars.ForeignMessageIsInvisible | src/botafuturo/adapters/exnova/market_data.py:186-211 | a message that does not match can be inserted anywhere in an epoch |
| ClosedBars.InvisibleExactlyWhenUnnoticed | src/botafuturo/adapters/exnova/market_data.py:186-211 | inserting a message anywhere in an epoch leaves its items as they were iff it does not match, or it joins the window of the next matching push, repeats the push before it, or is of the window still forming at the end |
| ClosedBars.LiveUpdateIsInvisible | src/botafuturo/adapters/exnova/market_data.py:202-207 | in particular a live update of the window of the next matching push, whatever heartbeats and foreign messages come in between |
| Backoff.DelayIsDrawn | src/botafuturo/adapters/exnova/reconnect.py:42-54 | for any base and cap the delay fails iff an argument is out of range, and ranges from nothing to the lesser of the cap and the doubled base, both reached |
| Backoff.CeilingInSeconds | src/botafuturo/adapters/exnova/reconnect.py:52 | the longest sleeps are 1, 2, 4, 8, 16, 32 and from then on 60 seconds |
| Backoff.CeilingDoublesThenStays | src/botafuturo/adapters/exnova/reconnect.py:52 | bounds never decrease, double up to the fifth loss and stay at 60 from the sixth |
| Backoff.AttemptCountsLosses | src/botafuturo/adapters/exnova/market_data.py:159-209 | the attempt counter is the number of losses since the connection last proved alive |
| Backoff.LosingStreakSleepsWithinBudget | src/botafuturo/adapters/exnova/market_data.py:241-246 | n losses in a row sleep at most 2^(n+1) - 2 up to five, 62 + 60 (n - 5) beyond |
| Exnova.HandshakeMeaning | src/botafuturo/adapters/exnova/ws_client.py:140-154 | succeeds iff the first confirmation is positive and among the first 20 messages, and consumes exactly up to it |
| Exnova.HandshakeWithoutConfirmation | src/botafuturo/adapters/exnova/ws_client.py:140-154 | without one it is lost if the messages run out before the limit, rejected otherwise |
| Exnova.DialInPlainTerms | src/botafuturo/adapters/exnova/ws_client.py:129-154 | a transport is authenticated iff it takes the frame and its first confirmation is positive and among its first 20 messages; what it fails with otherwise |
| Exnova.ExnovaWsClient.Connect | src/botafuturo/adapters/exnova/ws_client.py:129-154 | opens at most one transport, sends exactly one authentication if it takes it and performs the handshake; the transport stays in use however that ends |
| Exnova.ExnovaWsClient.Send | src/botafuturo/adapters/exnova/ws_client.py:203-206 | raises, with nothing sent, on a transport that accepts no more frames |
| Exnova.ExnovaMarketDataAdapter.Connect | src/botafuturo/adapters/exnova/market_data.py:127-135 | one login and one dial, or nothing when connected; connected afterwards iff it succeeded |
| Exnova.ExnovaMarketDataAdapter.Disconnect | src/botafuturo/adapters/exnova/market_data.py:137-142 | closes the transport in use if and only if connected |
| Exnova.ExnovaMarketDataAdapter.Reconnect | src/botafuturo/adapters/exnova/market_data.py:241-246 | one sleep, the drawn fraction of the ceiling of that attempt, the dead transport closed, one fresh dial |
| CandleStreaming.ConsumeKeepsBuffered | src/botafuturo/adapters/exnova/market_data.py:186-209 | one turn of the one-slot buffer keeps output, buffer and counter functions of the messages seen |
| CandleStreaming.CandleStream.Next | src/botafuturo/adapters/exnova/market_data.py:150-211 | everything yielded is the declarative meaning of the epochs seen; one open transport, each sent one authentication and one subscription; it raises exactly where the script stops carrying connections, a subscription not taken included; terminates |
| RunSessions.YieldedIsPrefix | src/botafuturo/adapters/exnova/market_data.py:167-207 | at every suspension the output is a prefix of the meaning of all epochs |
| RunSessions.RunSession | src/botafuturo/cli/run.py:41-65 | final session, count and exception are those of the run over the stream's meaning; each sleep is the next draw of the ceiling of its attempt; every transport but the last was sent one authentication and one subscription, the last what it took; every transport is closed, except the last when the run raises nothing itself and ends on a transport that `connect` did not authenticate |
| RunSessions.EndsUnauthenticatedExactlyWhen | src/botafuturo/adapters/exnova/ws_client.py:129-154 | a script ends so iff its first reply that carries no subscribed connection is a transport refusing the authentication frame or failing the handshake |
| RunSessions.EndInPlainTerms | src/botafuturo/cli/main.py:51-148 | the exception a script ends in, by the first reply that does not carry a subscribed connection |
| RunSessions.RefusedHandshakeLeaks | src/botafuturo/adapters/exnova/market_data.py:137-142 | one transport answering with a refusal stays open |
| RunSessions.RunCommand | src/botafuturo/cli/main.py:134-148 | a failed login, an unreachable server or a failed handshake gives status 1; any other exception, such as that of a rejected upgrade or of a frame not taken, goes through |
| Pipeline.EveryBarHasItsEpoch | src/botafuturo/adapters/exnova/market_data.py:167-207 | every candle yielded is a closed bar of one epoch, and the closes since the last gap are that epoch's |
| Pipeline.SignalsAreSound | src/botafuturo/cli/run.py:44-55 | every signal is the crossover of exactly slow+1 closes: final states of consecutive completed windows of one connection, never across a reconnect, never a bar still forming |
| Pipeline.EveryWindowIsDecided | src/botafuturo/cli/run.py:44-55 | conversely every completed window has its place in the stream, where a session that has not raised obtains exactly that crossover once its connection completed slow+1 windows, and nothing before |
| Pipeline.SignalsInPlainTerms | src/botafuturo/cli/run.py:44-55 | a live session is given a signal iff the close fields of the closing messages of that epoch so far, summed, cross |
| Pipeline.StreamIsChronological | src/botafuturo/adapters/exnova/market_data.py:192-201 | if windows never go back over all connections, neither does the stream |
| Pipeline.LiveRunsEndOnlyInConnectionErrors | src/botafuturo/cli/run.py:43-65 | a tradable session on its own asset processes every candle and ends only when a connection cannot be made or does not take the subscription |
| Pipeline.LiveOrderCountIsBounded | src/botafuturo/domain/session.py:65-95 | on a live stream the order counter is bounded by elapsed time over expiry |
| Pipeline.ForeignTrafficIsHarmless | src/botafuturo/adapters/exnova/market_data.py:186-211 | inserting any message its epoch cannot notice, anywhere in any epoch, changes nothing about the session |

## Left out

- The inside of the HTTP login, the `websockets` library, JSON encoding, `keyring`, environment, settings parsing and argument parsing: I/O and libraries. A login succeeds or fails.
- Closing a transport never fails.
- `history` and `price_at` of the live adapter, which the program does not implement, and `unsubscribe`, which it never calls.
- Malformed messages and bodies: every push is well formed, and undecodable text counts as a lost connection, as in the client.
- `Decimal` rounding at 28 digits, and float overflow in `backoff_delay` beyond about a thousand consecutive losses: arithmetic is exact.
- The random generator: each draw is an arbitrary number in [0, 1].
- The wall-clock time in gap markers, log messages, the journal file, its date filter and the printing of the summary.
- The four regular-expression passes of `redact_text` and the logging filter: only the literal replacement loop and the recursive walk are modelled. Lists and tuples are one kind of sequence.
- Interrupting the program from outside.
- A market-data source that ends normally: the composed run is over the live adapter, which ends only by raising.
- Report.JournalIsReadable: that the text of a decimal reads back as the same decimal is taken for granted (`IsDecimal`); how decimals are spelled is not modelled.
- Redaction.SeparateSecretIsHidden: speaks of the text after the literal loop, before the regular-expression passes.
- RunSessions.RunSession: starts from a freshly wired session and an adapter not used before, as the command line does; resuming an earlier session is not modelled.
- PaperBroker.MoneyIsConserved: settles only acknowledgements the broker itself issued; the program does not check for forged ones.
- Exnova.ExnovaWsClient.Send: sending or receiving without a transport, which raises `RuntimeError`, is excluded by preconditions the adapter always meets.
