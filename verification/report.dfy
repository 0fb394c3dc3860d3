/** The trade journal and its report: `_trade_to_record` (src/botafuturo/cli/wire.py), the redacted
    append of `JsonlTradeLog` (src/botafuturo/adapters/logging/journal.py) and `summarize`
    (src/botafuturo/cli/report.py). */
module Report {
  import opened Models
  import opened Settlement
  import opened Risk
  import opened Redaction
  import opened PaperBroker
  import opened Session
  import opened SessionLaws

  type Record = map<string, Json>

  function OutcomeWord(o: Outcome): string {
    match o
    case WIN => "win"
    case LOSS => "loss"
    case TIE => "tie"
  }

  function DirectionWord(d: Direction): string {
    match d
    case CALL => "call"
    case PUT => "put"
  }

  /** How the journal spells times and amounts, and how an amount is read back: `datetime.isoformat`,
      `str` of a decimal and `Decimal` of a text, which raises on most texts. */
  datatype Spelling = Spelling(iso: int -> string, show: real -> string, parse: string -> Option<real>)

  /** `_trade_to_record` */
  function TradeToRecord(t: Trade, spell: Spelling): Record {
    map[
      "order_id" := Text(t.ack.orderId),
      "asset" := Text(t.ack.request.asset),
      "direction" := Text(DirectionWord(t.ack.request.direction)),
      "stake" := Num(t.ack.request.stake),
      "opened_at" := Text(spell.iso(t.ack.request.openedAt)),
      "expiry_at" := Text(spell.iso(t.ack.expiryAt)),
      "entry_price" := Num(t.ack.entryPrice),
      "expiry_price" := Num(t.expiryPrice),
      "outcome" := Text(OutcomeWord(t.outcome)),
      "pnl" := Num(t.pnl),
      "balance_after" := Num(t.balanceAfter),
      "ts" := Text(spell.iso(t.ack.expiryAt))
    ]
  }

  /** `json.dumps` with `default=str`: amounts become text. */
  function Dumped(r: Record, spell: Spelling): Record {
    map key | key in r :: match r[key] case Num(v) => Text(spell.show(v)) case j => j
  }

  /** What the journal holds for a trade: its record with every string redacted, then dumped. */
  function Journalled(t: Trade, spell: Spelling, secrets: seq<string>): Record
    requires "" !in secrets
  {
    Dumped(Walk(Obj(TradeToRecord(t, spell)), secrets).fields, spell)
  }

  // ---------- summarize ----------

  datatype TradeSummary = TradeSummary(
    tradeCount: nat, winCount: nat, lossCount: nat, tieCount: nat, winRate: Option<real>, netPnl: real)

  predicate HasOutcome(r: Record, word: string) {
    "outcome" in r && r["outcome"] == Text(word)
  }

  /** `Decimal(str(j))`, which raises on anything that is no number and does not spell one. */
  function DecimalOf(j: Json, spell: Spelling): Option<real> {
    match j
    case Num(v) => Some(v)
    case Text(s) => spell.parse(s)
    case _ => None
  }

  /** A number reads as itself, a text as what it spells, and anything else does not read. */
  lemma ResultsInPlainTerms(r: Record, spell: Spelling)
    ensures "pnl" !in r ==> Readable(r, spell) && PnlOf(r, spell) == 0.0
    ensures forall v :: "pnl" in r && r["pnl"] == Num(v) ==> Readable(r, spell) && PnlOf(r, spell) == v
    ensures forall s, v :: "pnl" in r && r["pnl"] == Text(s) && spell.parse(s) == Some(v) ==> PnlOf(r, spell) == v
    ensures Readable(r, spell) && "pnl" in r ==> r["pnl"].Num? || (r["pnl"].Text? && spell.parse(r["pnl"].text).Some?)
  {
  }

  predicate Readable(r: Record, spell: Spelling) {
    "pnl" in r ==> DecimalOf(r["pnl"], spell).Some?
  }

  function PnlOf(r: Record, spell: Spelling): real {
    if "pnl" in r && Readable(r, spell) then DecimalOf(r["pnl"], spell).value else 0.0
  }

  function CountWord(records: seq<Record>, word: string): nat {
    if records == [] then 0
    else CountWord(records[..|records| - 1], word)
         + (if HasOutcome(records[|records| - 1], word) then 1 else 0)
  }

  function NetPnl(records: seq<Record>, spell: Spelling): real {
    if records == [] then 0.0
    else NetPnl(records[..|records| - 1], spell) + PnlOf(records[|records| - 1], spell)
  }

  function Rate(wins: nat, losses: nat): Option<real> {
    if wins + losses > 0 then Some(wins as real / (wins + losses) as real) else None
  }

  /** Wins over decisive trades, as the journal spells them. */
  function ReportedRate(records: seq<Record>): Option<real> {
    Rate(CountWord(records, "win"), CountWord(records, "loss"))
  }

  /** Raises exactly when some record holds a result that cannot be read. */
  method Summarize(records: seq<Record>, spell: Spelling) returns (r: Result<TradeSummary, Error>)
    ensures r.Ok? <==> forall i :: 0 <= i < |records| ==> Readable(records[i], spell)
    ensures r.Err? ==> r.error == InvalidDecimal
    ensures r.Ok? ==> var summary := r.value;
                      && summary.tradeCount == |records|
                      && summary.winCount == CountWord(records, "win")
                      && summary.lossCount == CountWord(records, "loss")
                      && summary.tieCount == CountWord(records, "tie")
                      && summary.netPnl == NetPnl(records, spell)
                      && summary.winRate == ReportedRate(records)
                      && (summary.winRate.Some? <==> summary.winCount + summary.lossCount > 0)
                      && (summary.winRate.Some? ==>
                            summary.winRate.value * (summary.winCount + summary.lossCount) as real
                            == summary.winCount as real)
  {
    hide CountWord, NetPnl, HasOutcome, DecimalOf;
    var tradeCount, winCount, lossCount, tieCount, netPnl := 0, 0, 0, 0, 0.0;
    NothingCounted(spell);
    for i := 0 to |records|
      invariant tradeCount == i
      invariant winCount == CountWord(records[..i], "win")
      invariant lossCount == CountWord(records[..i], "loss")
      invariant tieCount == CountWord(records[..i], "tie")
      invariant netPnl == NetPnl(records[..i], spell)
      invariant forall j :: 0 <= j < i ==> Readable(records[j], spell)
    {
      var record := records[i];
      OneMoreRecord(records, i, spell);
      tradeCount := tradeCount + 1;
      if HasOutcome(record, "win") {
        winCount := winCount + 1;
      } else if HasOutcome(record, "loss") {
        lossCount := lossCount + 1;
      } else if HasOutcome(record, "tie") {
        tieCount := tieCount + 1;
      }
      if "pnl" in record {
        var pnl := DecimalOf(record["pnl"], spell);
        if pnl.None? {
          return Err(InvalidDecimal);
        }
        netPnl := netPnl + pnl.value;
      }
    }
    assert records[..|records|] == records;
    RateTimesDecisive(winCount, lossCount);
    var decisive := winCount + lossCount;
    var winRate := if decisive > 0 then Some(winCount as real / decisive as real) else None;
    return Ok(TradeSummary(tradeCount, winCount, lossCount, tieCount, winRate, netPnl));
  }

  lemma NothingCounted(spell: Spelling)
    ensures NetPnl([], spell) == 0.0 && forall word :: CountWord([], word) == 0
  {
  }

  lemma OneMoreRecord(records: seq<Record>, i: nat, spell: Spelling)
    requires i < |records|
    ensures NetPnl(records[..i + 1], spell) == NetPnl(records[..i], spell) + PnlOf(records[i], spell)
    ensures forall word :: CountWord(records[..i + 1], word)
                        == CountWord(records[..i], word) + (if HasOutcome(records[i], word) then 1 else 0)
    ensures HasOutcome(records[i], "win") ==> !HasOutcome(records[i], "loss") && !HasOutcome(records[i], "tie")
    ensures HasOutcome(records[i], "loss") ==> !HasOutcome(records[i], "tie")
  {
    hide PnlOf;
    assert records[..i + 1][..i] == records[..i];
    assert |"win"| != |"loss"| && "win"[0] != "tie"[0];
  }

  lemma RateTimesDecisive(wins: nat, losses: nat)
    ensures var rate := Rate(wins, losses);
            rate.Some? ==> rate.value * (wins + losses) as real == wins as real
  {
  }

  // ---------- the report against the log ----------

  /** No secret occurs in the word, so redaction leaves it alone. */
  ghost predicate Unspoiled(word: string, secrets: set<string>) {
    forall x :: x in secrets ==> !Occurs(x, word)
  }

  /** A decimal's text reads back as it was. */
  predicate IsDecimal(x: real, spell: Spelling) {
    spell.parse(spell.show(x)) == Some(x)
  }

  /** `r` is what appending `t` wrote, under some iteration order of the secrets. */
  ghost predicate WrittenAs(r: Record, t: Trade, spell: Spelling, secrets: set<string>, order: seq<string>) {
    && "" !in order && (forall x :: x in order <==> x in secrets)
    && IsDecimal(t.pnl, spell)
    && r == Journalled(t, spell, order)
  }

  ghost predicate JournalOf(records: seq<Record>, log: seq<Trade>, spell: Spelling, secrets: set<string>,
                            orders: seq<seq<string>>) {
    && |records| == |log| == |orders|
    && forall i :: 0 <= i < |log| ==> WrittenAs(records[i], log[i], spell, secrets, orders[i])
  }

  lemma WalkField(r: Record, key: string, secrets: seq<string>)
    requires "" !in secrets && key in r
    ensures var r' := Walk(Obj(r), secrets).fields;
            key in r' && r'[key] == Walk(r[key], secrets)
  {
  }

  lemma RecordOutcome(r: Record, t: Trade, spell: Spelling, secrets: set<string>, order: seq<string>, o: Outcome)
    requires WrittenAs(r, t, spell, secrets, order)
    ensures Readable(r, spell) && PnlOf(r, spell) == t.pnl
    ensures HasOutcome(r, OutcomeWord(o)) <==> t.outcome == o && Unspoiled(OutcomeWord(o), secrets)
  {
    var word, plain := OutcomeWord(t.outcome), TradeToRecord(t, spell);
    assert plain["outcome"] == Text(word) && plain["pnl"] == Num(t.pnl);
    WalkField(plain, "outcome", order);
    WalkField(plain, "pnl", order);
    UnchangedExactlyWhenNoSecret(word, order);
    assert '*' !in OutcomeWord(o);
    assert |"win"| != |"loss"| && "win"[0] != "tie"[0];
  }

  lemma JournalFront(records: seq<Record>, log: seq<Trade>, spell: Spelling, secrets: set<string>,
                     orders: seq<seq<string>>)
    requires log != [] && JournalOf(records, log, spell, secrets, orders)
    ensures var n := |log| - 1;
            && |records| == |orders| == n + 1
            && WrittenAs(records[n], log[n], spell, secrets, orders[n])
            && JournalOf(records[..n], log[..n], spell, secrets, orders[..n])
  {
    hide WrittenAs;
  }

  lemma EmptyJournal(records: seq<Record>, spell: Spelling, secrets: set<string>, orders: seq<seq<string>>)
    requires JournalOf(records, [], spell, secrets, orders)
    ensures records == []
  {
  }

  /** Every result in the journal can be read, so that `summarize` does not raise. */
  lemma JournalIsReadable(records: seq<Record>, log: seq<Trade>, spell: Spelling, secrets: set<string>,
                          orders: seq<seq<string>>)
    requires JournalOf(records, log, spell, secrets, orders)
    ensures forall i :: 0 <= i < |records| ==> Readable(records[i], spell)
  {
    hide WrittenAs, Readable;
    forall i | 0 <= i < |records| ensures Readable(records[i], spell) {
      RecordOutcome(records[i], log[i], spell, secrets, orders[i], WIN);
    }
  }

  /** The journal's net result is always that of the log. Its count of an outcome is that of the log
      exactly when no secret occurs in the word for it (or there is nothing to count): a password
      such as "in" silently turns every win into an unknown outcome. */
  lemma {:induction false} ReportMatchesLog(
    records: seq<Record>, log: seq<Trade>, spell: Spelling, secrets: set<string>,
    orders: seq<seq<string>>, o: Outcome)
    requires JournalOf(records, log, spell, secrets, orders)
    ensures NetPnl(records, spell) == SumPnl(log)
    ensures CountWord(records, OutcomeWord(o))
         == if Unspoiled(OutcomeWord(o), secrets) then Count(log, o) else 0
  {
    if log == [] {
      EmptyJournal(records, spell, secrets, orders);
    } else {
      hide JournalOf, WrittenAs, Unspoiled, OutcomeWord, PnlOf, HasOutcome;
      var n := |log| - 1;
      JournalFront(records, log, spell, secrets, orders);
      ReportMatchesLog(records[..n], log[..n], spell, secrets, orders[..n], o);
      RecordOutcome(records[n], log[n], spell, secrets, orders[n], o);
    }
  }

  /** The report of an unspoiled journal counts every outcome as the log has it, ties included. */
  lemma UnspoiledReportCounts(records: seq<Record>, log: seq<Trade>, spell: Spelling, secrets: set<string>,
                              orders: seq<seq<string>>)
    requires JournalOf(records, log, spell, secrets, orders)
    requires Unspoiled("win", secrets) && Unspoiled("loss", secrets) && Unspoiled("tie", secrets)
    ensures CountWord(records, "win") == Count(log, WIN)
    ensures CountWord(records, "loss") == Count(log, LOSS)
    ensures CountWord(records, "tie") == Count(log, TIE)
  {
    hide JournalOf, Unspoiled, CountWord, Count;
    ReportMatchesLog(records, log, spell, secrets, orders, WIN);
    ReportMatchesLog(records, log, spell, secrets, orders, LOSS);
    ReportMatchesLog(records, log, spell, secrets, orders, TIE);
  }

  /** The field holds this text, or an amount that reads back as this number. */
  predicate HoldsText(r: Record, key: string, text: string) {
    key in r && r[key] == Text(text)
  }

  predicate HoldsAmount(r: Record, key: string, value: real, spell: Spelling) {
    key in r && DecimalOf(r[key], spell) == Some(value)
  }

  /** What a line of the journal says about a trade, field by field. */
  ghost predicate TellsTexts(r: Record, t: Trade, spell: Spelling) {
    && HoldsText(r, "order_id", t.ack.orderId) && HoldsText(r, "asset", t.ack.request.asset)
    && HoldsText(r, "direction", if t.ack.request.direction == CALL then "call" else "put")
    && HoldsText(r, "opened_at", spell.iso(t.ack.request.openedAt))
    && HoldsText(r, "expiry_at", spell.iso(t.ack.expiryAt)) && HoldsText(r, "ts", spell.iso(t.ack.expiryAt))
    && HoldsText(r, "outcome", match t.outcome case WIN => "win" case LOSS => "loss" case TIE => "tie")
  }

  ghost predicate TellsAmounts(r: Record, t: Trade, spell: Spelling) {
    && HoldsAmount(r, "stake", t.ack.request.stake, spell) && HoldsAmount(r, "entry_price", t.ack.entryPrice, spell)
    && HoldsAmount(r, "expiry_price", t.expiryPrice, spell) && HoldsAmount(r, "pnl", t.pnl, spell)
    && HoldsAmount(r, "balance_after", t.balanceAfter, spell)
  }

  ghost predicate TellsTrade(r: Record, t: Trade, spell: Spelling) {
    && r.Keys == {"order_id", "asset", "direction", "stake", "opened_at", "expiry_at", "entry_price",
                  "expiry_price", "outcome", "pnl", "balance_after", "ts"}
    && TellsTexts(r, t, spell) && TellsAmounts(r, t, spell)
  }

  /** Every amount of the trade is a decimal. */
  ghost predicate InDecimals(t: Trade, spell: Spelling) {
    && IsDecimal(t.ack.request.stake, spell) && IsDecimal(t.ack.entryPrice, spell)
    && IsDecimal(t.expiryPrice, spell) && IsDecimal(t.pnl, spell) && IsDecimal(t.balanceAfter, spell)
  }

  lemma DumpedField(r: Record, spell: Spelling, key: string)
    ensures Dumped(r, spell).Keys == r.Keys
    ensures key in r ==> Dumped(r, spell)[key] == if r[key].Num? then Text(spell.show(r[key].value)) else r[key]
  {
  }

  lemma DumpedAmount(r: Record, spell: Spelling, key: string, value: real)
    requires key in r && r[key] == Num(value) && IsDecimal(value, spell)
    ensures HoldsAmount(Dumped(r, spell), key, value, spell)
  {
    DumpedField(r, spell, key);
  }

  lemma DumpedText(r: Record, spell: Spelling, key: string, text: string)
    requires key in r && r[key] == Text(text)
    ensures HoldsText(Dumped(r, spell), key, text)
  {
    DumpedField(r, spell, key);
  }

  lemma DumpedTexts(t: Trade, spell: Spelling)
    ensures TellsTexts(Dumped(TradeToRecord(t, spell), spell), t, spell)
  {
    hide Dumped, HoldsText;
    var r := TradeToRecord(t, spell);
    DumpedText(r, spell, "order_id", t.ack.orderId);
    DumpedText(r, spell, "asset", t.ack.request.asset);
    DumpedText(r, spell, "direction", DirectionWord(t.ack.request.direction));
    DumpedText(r, spell, "opened_at", spell.iso(t.ack.request.openedAt));
    DumpedText(r, spell, "expiry_at", spell.iso(t.ack.expiryAt));
    DumpedText(r, spell, "ts", spell.iso(t.ack.expiryAt));
    DumpedText(r, spell, "outcome", OutcomeWord(t.outcome));
  }

  lemma DumpedAmounts(t: Trade, spell: Spelling)
    requires InDecimals(t, spell)
    ensures TellsAmounts(Dumped(TradeToRecord(t, spell), spell), t, spell)
  {
    hide Dumped, HoldsAmount, IsDecimal;
    var r := TradeToRecord(t, spell);
    DumpedAmount(r, spell, "stake", t.ack.request.stake);
    DumpedAmount(r, spell, "entry_price", t.ack.entryPrice);
    DumpedAmount(r, spell, "expiry_price", t.expiryPrice);
    DumpedAmount(r, spell, "pnl", t.pnl);
    DumpedAmount(r, spell, "balance_after", t.balanceAfter);
  }

  lemma DumpedTellsTrade(t: Trade, spell: Spelling)
    requires InDecimals(t, spell)
    ensures TellsTrade(Dumped(TradeToRecord(t, spell), spell), t, spell)
  {
    hide Dumped, TellsTexts, TellsAmounts;
    DumpedField(TradeToRecord(t, spell), spell, "pnl");
    DumpedTexts(t, spell);
    DumpedAmounts(t, spell);
  }

  /** Round trip: where no secret occurs in its texts, the line written for a trade tells the trade. */
  lemma JournalTellsTrade(t: Trade, spell: Spelling, order: seq<string>)
    requires "" !in order && InDecimals(t, spell)
    requires forall x :: x in order ==> Free(x, Obj(TradeToRecord(t, spell)))
    ensures TellsTrade(Journalled(t, spell, order), t, spell)
  {
    hide TellsTrade, TradeToRecord, Dumped;
    CleanMappingIsKept(Obj(TradeToRecord(t, spell)), order);
    DumpedTellsTrade(t, spell);
  }

  /** Fourth book: on every run, the journal's net result is the broker's gain, its length the number
      of settled orders. */
  lemma {:induction false} ReportAgreesWithBroker(
    s: Settings, items: seq<Item>, records: seq<Record>, spell: Spelling, secrets: set<string>,
    orders: seq<seq<string>>)
    requires s.Valid() && JournalOf(records, Run(s, items).machine.log, spell, secrets, orders)
    ensures var m := Run(s, items).machine;
            && NetPnl(records, spell) == m.risk.dailyPnl == m.ledger.balance + AtStake(s, m) - s.startingBalance
            && |records| + (if m.open.Some? then 1 else 0) == m.ledger.nextId - 1
  {
    hide Run;
    BooksAgree(s, items);
    ReportMatchesLog(records, Run(s, items).machine.log, spell, secrets, orders, WIN);
  }

  // ---------- break-even ----------

  /** What so many wins and losses amount to. */
  function Tally(wins: nat, losses: nat, perWin: real, perLoss: real): real {
    wins as real * perWin - losses as real * perLoss
  }

  lemma TallyGrows(wins: nat, losses: nat, perWin: real, perLoss: real)
    ensures Tally(wins + 1, losses, perWin, perLoss) == Tally(wins, losses, perWin, perLoss) + perWin
    ensures Tally(wins, losses + 1, perWin, perLoss) == Tally(wins, losses, perWin, perLoss) - perLoss
  {
    assert (wins + 1) as real * perWin == wins as real * perWin + perWin;
    assert (losses + 1) as real * perLoss == losses as real * perLoss + perLoss;
  }

  ghost predicate PricedAt(t: Trade, perWin: real, perLoss: real) {
    t.pnl == match t.outcome
             case WIN => perWin
             case LOSS => -perLoss
             case TIE => 0.0
  }

  lemma {:induction false} PricedLogTally(log: seq<Trade>, perWin: real, perLoss: real)
    requires forall i :: 0 <= i < |log| ==> PricedAt(log[i], perWin, perLoss)
    ensures SumPnl(log) == Tally(Count(log, WIN), Count(log, LOSS), perWin, perLoss)
  {
    if log != [] {
      hide Tally;
      var n := |log| - 1;
      forall i | 0 <= i < n ensures PricedAt(log[..n][i], perWin, perLoss) {
        assert PricedAt(log[i], perWin, perLoss);
      }
      PricedLogTally(log[..n], perWin, perLoss);
      assert PricedAt(log[n], perWin, perLoss);
      TallyGrows(Count(log[..n], WIN), Count(log[..n], LOSS), perWin, perLoss);
    }
  }

  lemma SessionTradesArePriced(s: Settings, m: Machine, i: nat, perWin: real)
    requires Booked(s, m) && i < |m.log| && perWin == s.stakeAmount * s.payoutRate
    ensures PricedAt(m.log[i], perWin, s.stakeAmount)
  {
    hide OrderId, SumPnl, ResolveOutcome;
    assert Entry(s, m, i);
  }

  /** A session's result is its wins times the payout less its losses times the stake. */
  lemma NetIsWinsLessLosses(s: Settings, m: Machine, perWin: real)
    requires Booked(s, m) && perWin == s.stakeAmount * s.payoutRate
    ensures SumPnl(m.log) == Tally(Count(m.log, WIN), Count(m.log, LOSS), perWin, s.stakeAmount)
  {
    hide Booked, SumPnl, Count, Tally, PricedAt;
    forall i | 0 <= i < |m.log| ensures PricedAt(m.log[i], perWin, s.stakeAmount) {
      SessionTradesArePriced(s, m, i, perWin);
    }
    PricedLogTally(m.log, perWin, s.stakeAmount);
  }

  lemma RateAboveBreakEven(wins: real, decisive: real, e: real)
    requires decisive > 0.0 && e > 0.0
    ensures wins / decisive > 1.0 / e <==> wins * e > decisive
  {
    var a, b := wins / decisive, 1.0 / e;
    assert a * decisive == wins && b * e == 1.0;
    var de := decisive * e;
    assert de > 0.0;
    assert a * de == wins * e;
    assert b * de == decisive;
    assert a > b <==> a * de > b * de;
  }

  /** A rate of so many wins and losses is above 1 / (1 + payout). */
  predicate BeatsBreakEven(wins: nat, losses: nat, payout: real)
    requires payout > -1.0 && wins + losses > 0
  {
    wins as real / (wins + losses) as real > 1.0 / (1.0 + payout)
  }

  lemma TallyIsPositive(wins: nat, losses: nat, stake: real, payout: real, perWin: real)
    requires stake > 0.0 && payout > -1.0 && wins + losses > 0 && perWin == stake * payout
    ensures Tally(wins, losses, perWin, stake) > 0.0 <==> BeatsBreakEven(wins, losses, payout)
  {
    var w, l := wins as real, losses as real;
    assert (wins + losses) as real == w + l;
    RateAboveBreakEven(w, w + l, 1.0 + payout);
    assert w * (1.0 + payout) == w + w * payout;
    assert w * (stake * payout) - l * stake == stake * (w * payout - l);
    assert stake * (w * payout - l) > 0.0 <==> w * payout - l > 0.0;
  }

  /** With at least one decisive trade, a session is in profit exactly when its wins make up more than
      1 / (1 + payout) of them; and what the losses cost never exceeds what the wins brought in plus
      the daily limit and one worst trade. */
  lemma {:induction false} BreakEven(s: Settings, items: seq<Item>)
    requires s.Valid()
    ensures var m := Run(s, items).machine;
            var wins, losses := Count(m.log, WIN), Count(m.log, LOSS);
            && SumPnl(m.log) == Tally(wins, losses, s.stakeAmount * s.payoutRate, s.stakeAmount)
            && Tally(wins, losses, s.stakeAmount * s.payoutRate, s.stakeAmount)
               >= -Max(s.maxDailyLossPct * s.startingBalance, 0.0) - WorstLoss(s)
            && (s.payoutRate > -1.0 && wins + losses > 0 ==>
                  (SumPnl(m.log) > 0.0 <==> BeatsBreakEven(wins, losses, s.payoutRate)))
  {
    hide Run, Count, SumPnl, WorstLoss, Tally, Booked, Gated, BeatsBreakEven, Max;
    WorstLossIsNoGain(s);
    var m := Run(s, items).machine;
    var wins, losses, perWin := Count(m.log, WIN), Count(m.log, LOSS), s.stakeAmount * s.payoutRate;
    RunKeepsBooks(s, items);
    NetIsWinsLessLosses(s, m, perWin);
    DrawdownOfLog(s, items);
    if s.payoutRate > -1.0 && wins + losses > 0 {
      StakeIsPositive(s, m);
      TallyIsPositive(wins, losses, s.stakeAmount, s.payoutRate, perWin);
    }
  }

  lemma WorstLossIsNoGain(s: Settings)
    ensures WorstLoss(s) >= 0.0
  {
  }

  lemma StakeIsPositive(s: Settings, m: Machine)
    requires Gated(s, m) && Count(m.log, WIN) + Count(m.log, LOSS) > 0
    ensures s.stakeAmount > 0.0
  {
  }

  // ---------- break-even, as reported ----------

  /** A report whose outcome words survived redaction decides: the session is in profit exactly when
      the reported win rate is above 1 / (1 + payout). */
  lemma {:induction false} ReportedRateDecides(
    s: Settings, items: seq<Item>, records: seq<Record>, spell: Spelling, secrets: set<string>,
    orders: seq<seq<string>>)
    requires s.Valid() && s.payoutRate > -1.0
    requires JournalOf(records, Run(s, items).machine.log, spell, secrets, orders)
    requires Unspoiled(OutcomeWord(WIN), secrets) && Unspoiled(OutcomeWord(LOSS), secrets)
    ensures var rate := ReportedRate(records);
            && NetPnl(records, spell) == SumPnl(Run(s, items).machine.log)
            && (rate.Some? ==> (NetPnl(records, spell) > 0.0 <==> rate.value > 1.0 / (1.0 + s.payoutRate)))
            && (rate.None? ==> NetPnl(records, spell) == 0.0)
  {
    hide Run, Count, SumPnl, CountWord, NetPnl, JournalOf, Unspoiled, Tally, WorstLoss;
    var log := Run(s, items).machine.log;
    ReportMatchesLog(records, log, spell, secrets, orders, WIN);
    ReportMatchesLog(records, log, spell, secrets, orders, LOSS);
    BreakEven(s, items);
    if Count(log, WIN) + Count(log, LOSS) == 0 {
      EmptyTally(s.stakeAmount * s.payoutRate, s.stakeAmount);
    }
  }

  lemma EmptyTally(perWin: real, perLoss: real)
    ensures Tally(0, 0, perWin, perLoss) == 0.0
  {
  }

  /** A report with a spoiled word decides nothing: whatever the log, a rate it gives at all is 0 if
      "win" is spoiled and 1 if "loss" is. */
  lemma {:induction false} SpoiledRateIsFixed(
    records: seq<Record>, log: seq<Trade>, spell: Spelling, secrets: set<string>, orders: seq<seq<string>>)
    requires JournalOf(records, log, spell, secrets, orders)
    requires !Unspoiled(OutcomeWord(WIN), secrets) || !Unspoiled(OutcomeWord(LOSS), secrets)
    ensures ReportedRate(records)
         == if Unspoiled(OutcomeWord(LOSS), secrets) && Count(log, LOSS) > 0 then Some(0.0)
            else if Unspoiled(OutcomeWord(WIN), secrets) && Count(log, WIN) > 0 then Some(1.0)
            else None
  {
    hide Rate, Count, SumPnl, CountWord, NetPnl, JournalOf, Unspoiled;
    ReportMatchesLog(records, log, spell, secrets, orders, WIN);
    ReportMatchesLog(records, log, spell, secrets, orders, LOSS);
    OneSidedRate(CountWord(records, "win"), CountWord(records, "loss"));
  }

  lemma OneSidedRate(wins: nat, losses: nat)
    requires wins == 0 || losses == 0
    ensures Rate(wins, losses) == if losses > 0 then Some(0.0) else if wins > 0 then Some(1.0) else None
  {
    if losses > 0 {
      assert wins as real == 0.0;
    } else if wins > 0 {
      var w := (wins + losses) as real;
      assert w == wins as real && w / w == 1.0;
    }
  }

  lemma LoneRecord(r: Record, spell: Spelling)
    ensures NetPnl([r], spell) == PnlOf(r, spell)
    ensures forall word :: CountWord([r], word) == if HasOutcome(r, word) then 1 else 0
  {
    hide PnlOf, HasOutcome;
    assert [r][..0] == [];
  }

  /** The smallest case: with the secret "os", a lost trade is journalled with its loss and without
      its outcome. */
  lemma SecretHidesLoss(t: Trade, spell: Spelling)
    requires t.outcome == LOSS && IsDecimal(t.pnl, spell)
    ensures var records := [Journalled(t, spell, ["os"])];
            CountWord(records, "loss") == 0 && NetPnl(records, spell) == t.pnl && ReportedRate(records) == None
  {
    hide Journalled, HasOutcome, PnlOf, CountWord, NetPnl;
    var r := Journalled(t, spell, ["os"]);
    assert "os" in {"os"} && OccursAt("os", OutcomeWord(LOSS), 1);
    RecordOutcome(r, t, spell, {"os"}, ["os"], LOSS);
    RecordOutcome(r, t, spell, {"os"}, ["os"], WIN);
    LoneRecord(r, spell);
  }
}
