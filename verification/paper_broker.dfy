/** The in-memory paper broker (src/botafuturo/adapters/paper/balance.py and broker.py).

    `PlaceOrder` and `SettleOrder` are the two operations on the value of a broker; the classes
    `Balance` and `PaperBrokerAdapter` carry them out in place. */
module PaperBroker {
  import opened Models
  import opened Settlement

  const PAPER_ENTRY_PRICE: real := 100.0
  const SUPPORTED_EXPIRY_SECONDS: set<int> := {60, 300}

  // ---------- order identifiers ----------

  function Digits(n: nat): string {
    var last := ('0' as int + n % 10) as char;
    if n < 10 then [last] else Digits(n / 10) + [last]
  }

  function OrderId(n: nat): string {
    "paper-order-" + Digits(n)
  }

  /** What a decimal numeral stands for. */
  function Numeral(s: string): int {
    if s == "" then 0 else 10 * Numeral(s[..|s| - 1]) + (s[|s| - 1] as int - '0' as int)
  }

  /** The digits of a number spell it, in decimal and without a leading zero. */
  lemma {:induction false} DigitsSpellTheNumber(n: nat)
    ensures Numeral(Digits(n)) == n
    ensures Digits(n) != "" && forall c :: c in Digits(n) ==> '0' <= c <= '9'
    ensures n > 0 ==> Digits(n)[0] != '0'
  {
    if n < 10 {
      assert Digits(n)[..0] == "" && Numeral("") == 0;
    } else {
      DigitsSpellTheNumber(n / 10);
      var s := Digits(n);
      assert s[..|s| - 1] == Digits(n / 10);
    }
  }

  /** Numbered order ids never collide, which is what lets `_settled` be keyed by them: an id is the
      word "paper-order-" and the decimal number of the order. */
  lemma OrderIdInjective(a: nat, b: nat)
    ensures OrderId(a) == OrderId(b) <==> a == b
    ensures "paper-order-" <= OrderId(a) && Numeral(OrderId(a)[12..]) == a
  {
    var p := "paper-order-";
    assert OrderId(a)[|p|..] == Digits(a) && OrderId(b)[|p|..] == Digits(b);
    DigitsSpellTheNumber(a);
    DigitsSpellTheNumber(b);
    hide Digits, Numeral;
  }

  // ---------- the broker as a value ----------

  datatype Ledger = Ledger(balance: real, nextId: nat, settled: map<string, Trade>)

  function PlaceOrder(b: Ledger, order: OrderRequest): (Ledger, Result<OrderAck, Error>) {
    if order.stake <= 0.0 || order.stake > b.balance then (b, Err(InsufficientBalance))
    else if order.expiryS !in SUPPORTED_EXPIRY_SECONDS then (b, Err(UnsupportedExpiry))
    else
      (b.(nextId := b.nextId + 1, balance := b.balance - order.stake),
       Ok(OrderAck(OrderId(b.nextId), order, order.openedAt + order.expiryS, PAPER_ENTRY_PRICE)))
  }

  /** The trade `ack` becomes when it is settled for the first time at `price`. */
  function TradeOf(ack: OrderAck, price: real, balance: real): Trade {
    var outcome := ResolveOutcome(ack.request.direction, ack.entryPrice, price);
    var pnl := PnlFor(outcome, ack.request.stake, ack.request.payoutRate);
    Trade(ack, price, outcome, pnl, balance + (ack.request.stake + pnl))
  }

  function SettleOrder(b: Ledger, ack: OrderAck, quote: Quote): (Ledger, Trade) {
    if ack.orderId in b.settled then (b, b.settled[ack.orderId])
    else
      var trade := TradeOf(ack, quote.price, b.balance);
      (b.(balance := trade.balanceAfter, settled := b.settled[ack.orderId := trade]), trade)
  }

  // ---------- the two operations in plain numbers ----------

  /** An order is accepted exactly when its stake is positive and covered and it expires after a minute or
      five; it then gets the next number, locks its stake and fixes the one entry price there is. */
  lemma PlacedInPlainTerms(b: Ledger, order: OrderRequest)
    ensures var (b', r) := PlaceOrder(b, order);
            && (r.Ok? <==> 0.0 < order.stake <= b.balance && (order.expiryS == 60 || order.expiryS == 300))
            && (r.Err? ==> b' == b
                           && r.error == if 0.0 < order.stake <= b.balance then UnsupportedExpiry
                                         else InsufficientBalance)
            && (r.Ok? ==> b' == Ledger(b.balance - order.stake, b.nextId + 1, b.settled)
                          && r.value.request == order && r.value.orderId == OrderId(b.nextId)
                          && r.value.expiryAt == order.openedAt + order.expiryS
                          && r.value.entryPrice == 100.0)
  {
    hide OrderId;
  }

  /** The verdict on `t` that its own prices call for: a tie at exactly the entry price, else a win
      exactly when the price went the way of the order. */
  ghost predicate Judged(t: Trade) {
    var entry, expiry, stake := t.ack.entryPrice, t.expiryPrice, t.ack.request.stake;
    && (t.outcome == TIE <==> expiry == entry)
    && (t.outcome == WIN <==> if t.ack.request.direction == CALL then expiry > entry else expiry < entry)
    && (t.outcome == WIN ==> t.pnl == stake * t.ack.request.payoutRate)
    && (t.outcome == LOSS ==> t.pnl == -stake)
    && (t.outcome == TIE ==> t.pnl == 0.0)
  }

  lemma TradeOfIsJudged(ack: OrderAck, price: real, balance: real)
    ensures Judged(TradeOf(ack, price, balance))
  {
    OppositeSides(ack.request.direction, ack.entryPrice, price);
  }

  /** The first settlement of an order judges it at the quoted price and pays out stake and result. */
  lemma SettledInPlainTerms(b: Ledger, ack: OrderAck, quote: Quote)
    requires ack.orderId !in b.settled
    ensures var (b', t) := SettleOrder(b, ack, quote);
            && t.ack == ack && t.expiryPrice == quote.price && Judged(t)
            && b'.balance == t.balanceAfter == b.balance + (ack.request.stake + t.pnl)
            && b'.nextId == b.nextId && b'.settled == b.settled[ack.orderId := t]
  {
    TradeOfIsJudged(ack, quote.price, b.balance);
    hide Judged, ResolveOutcome, PnlFor;
  }

  // ---------- the broker in place ----------

  class Balance {
    var amount: real

    constructor (startingBalance: real)
      ensures amount == startingBalance
    {
      amount := startingBalance;
    }

    method Debit(sum: real) returns (r: Result<(), Error>)
      modifies this
      ensures r == if sum > old(amount) then Err(InsufficientFunds) else Ok(())
      ensures amount == if r.Ok? then old(amount) - sum else old(amount)
    {
      if sum > amount {
        return Err(InsufficientFunds);
      }
      amount := amount - sum;
      return Ok(());
    }

    method Credit(sum: real)
      modifies this
      ensures amount == old(amount) + sum
    {
      amount := amount + sum;
    }
  }

  class PaperBrokerAdapter {
    const account: Balance
    var nextId: nat
    var settled: map<string, Trade>

    constructor (startingBalance: real)
      ensures State() == Ledger(startingBalance, 1, map[])
      ensures fresh(account)
    {
      account := new Balance(startingBalance);
      nextId := 1;
      settled := map[];
    }

    function State(): Ledger
      reads this, account
    {
      Ledger(account.amount, nextId, settled)
    }

    method Place(order: OrderRequest) returns (r: Result<OrderAck, Error>)
      modifies this, account
      ensures (State(), r) == PlaceOrder(old(State()), order)
    {
      if order.stake <= 0.0 || order.stake > account.amount {
        return Err(InsufficientBalance);
      }
      if order.expiryS !in SUPPORTED_EXPIRY_SECONDS {
        return Err(UnsupportedExpiry);
      }
      var orderId := OrderId(nextId);
      nextId := nextId + 1;
      var debited := account.Debit(order.stake);
      assert debited.Ok?;  // the first guard already rules out InsufficientFunds
      return Ok(OrderAck(orderId, order, order.openedAt + order.expiryS, PAPER_ENTRY_PRICE));
    }

    method Settle(ack: OrderAck, expiryQuote: Quote) returns (trade: Trade)
      modifies this, account
      ensures (State(), trade) == SettleOrder(old(State()), ack, expiryQuote)
    {
      if ack.orderId in settled {
        return settled[ack.orderId];
      }
      var outcome := ResolveOutcome(ack.request.direction, ack.entryPrice, expiryQuote.price);
      var pnl := PnlFor(outcome, ack.request.stake, ack.request.payoutRate);
      account.Credit(ack.request.stake + pnl);
      trade := Trade(ack, expiryQuote.price, outcome, pnl, account.amount);
      settled := settled[ack.orderId := trade];
    }
  }

  // ---------- many outstanding orders, any interleaving ----------

  /** One call on the broker: place an order, or settle the k-th order acknowledged so far.
      Naming an order that has not been acknowledged yet is impossible and does nothing. */
  datatype Call = Place(order: OrderRequest) | Settle(k: nat, quote: Quote)

  datatype Desk = Desk(ledger: Ledger, issued: seq<OrderAck>)

  function Answer(d: Desk, call: Call): Desk {
    match call
    case Place(order) =>
      var (b, r) := PlaceOrder(d.ledger, order);
      Desk(b, if r.Ok? then d.issued + [r.value] else d.issued)
    case Settle(k, quote) =>
      if k < |d.issued| then d.(ledger := SettleOrder(d.ledger, d.issued[k], quote).0) else d
  }

  function AnswerAll(start: real, calls: seq<Call>): Desk {
    if calls == [] then Desk(Ledger(start, 1, map[]), [])
    else Answer(AnswerAll(start, calls[..|calls| - 1]), calls[|calls| - 1])
  }

  /** Stakes of issued orders that are not settled. */
  function Locked(issued: seq<OrderAck>, settled: map<string, Trade>): real {
    if issued == [] then 0.0
    else
      var last := issued[|issued| - 1];
      Locked(issued[..|issued| - 1], settled)
      + (if last.orderId in settled then 0.0 else last.request.stake)
  }

  /** Profit and loss of issued orders that are settled. */
  function Realised(issued: seq<OrderAck>, settled: map<string, Trade>): real {
    if issued == [] then 0.0
    else
      var last := issued[|issued| - 1];
      Realised(issued[..|issued| - 1], settled)
      + (if last.orderId in settled then settled[last.orderId].pnl else 0.0)
  }

  ghost predicate Numbered(issued: seq<OrderAck>) {
    forall i :: 0 <= i < |issued| ==> issued[i].orderId == OrderId(i + 1)
  }


  /** What the broker holds for `id` is the judged trade of an issued order of that id. */
  ghost predicate OnRecord(d: Desk, id: string)
    requires id in d.ledger.settled
  {
    var t := d.ledger.settled[id];
    && Judged(t)
    && exists i :: 0 <= i < |d.issued| && d.issued[i].orderId == id && t.ack == d.issued[i]
  }

  ghost predicate Conserved(start: real, d: Desk) {
    && Numbered(d.issued)
    && d.ledger.nextId == |d.issued| + 1
    && (forall i :: 0 <= i < |d.issued| ==> d.issued[i].request.stake > 0.0)
    && (forall id :: id in d.ledger.settled ==> OnRecord(d, id))
    && d.ledger.balance + Locked(d.issued, d.ledger.settled)
       == start + Realised(d.issued, d.ledger.settled)
  }

  lemma {:induction false} SumsIgnoreForeignId(issued: seq<OrderAck>, settled: map<string, Trade>, id: string, t: Trade)
    requires forall i :: 0 <= i < |issued| ==> issued[i].orderId != id
    ensures Locked(issued, settled[id := t]) == Locked(issued, settled)
    ensures Realised(issued, settled[id := t]) == Realised(issued, settled)
  {
    if issued != [] {
      SumsIgnoreForeignId(issued[..|issued| - 1], settled, id, t);
    }
  }

  lemma {:induction false} SettlingMovesOneStake(issued: seq<OrderAck>, settled: map<string, Trade>, k: nat, t: Trade)
    requires Numbered(issued) && k < |issued| && issued[k].orderId !in settled
    ensures Locked(issued, settled[issued[k].orderId := t]) == Locked(issued, settled) - issued[k].request.stake
    ensures Realised(issued, settled[issued[k].orderId := t]) == Realised(issued, settled) + t.pnl
  {
    var n := |issued| - 1;
    var id := issued[k].orderId;
    if k == n {
      forall i | 0 <= i < n ensures issued[..n][i].orderId != id {
        OrderIdInjective(i + 1, n + 1);
      }
      SumsIgnoreForeignId(issued[..n], settled, id, t);
    } else {
      OrderIdInjective(k + 1, n + 1);
      SettlingMovesOneStake(issued[..n], settled, k, t);
    }
  }

  lemma StaysOnRecord(d: Desk, ledger: Ledger, ack: OrderAck, id: string)
    requires Numbered(d.issued) && id in d.ledger.settled && OnRecord(d, id)
    requires ledger.settled == d.ledger.settled && ack.orderId == OrderId(|d.issued| + 1)
    ensures OnRecord(Desk(ledger, d.issued + [ack]), id) && id != ack.orderId
  {
    hide Judged, OrderId;
    var i :| 0 <= i < |d.issued| && d.issued[i].orderId == id && d.ledger.settled[id].ack == d.issued[i];
    OrderIdInjective(i + 1, |d.issued| + 1);
    assert (d.issued + [ack])[i] == d.issued[i];
  }

  lemma NewOrderIsLocked(issued: seq<OrderAck>, ack: OrderAck, settled: map<string, Trade>)
    requires ack.orderId !in settled
    ensures Locked(issued + [ack], settled) == Locked(issued, settled) + ack.request.stake
    ensures Realised(issued + [ack], settled) == Realised(issued, settled)
  {
    assert (issued + [ack])[..|issued|] == issued;
  }

  lemma {:induction false} PlaceConserves(start: real, d: Desk, order: OrderRequest)
    requires Conserved(start, d)
    ensures Conserved(start, Answer(d, Place(order)))
  {
    hide OnRecord, Locked, Realised, OrderId;
    var d' := Answer(d, Place(order));
    if |d'.issued| > |d.issued| {
      var ack := d'.issued[|d.issued|];
      forall id | id in d.ledger.settled ensures OnRecord(d', id) && id != ack.orderId {
        StaysOnRecord(d, d'.ledger, ack, id);
      }
      NewOrderIsLocked(d.issued, ack, d.ledger.settled);
    }
  }

  lemma SettleConserves(start: real, d: Desk, k: nat, quote: Quote)
    requires Conserved(start, d)
    ensures Conserved(start, Answer(d, Settle(k, quote)))
  {
    if k < |d.issued| && d.issued[k].orderId !in d.ledger.settled {
      var d' := Answer(d, Settle(k, quote));
      var ack := d.issued[k];
      var t := TradeOf(ack, quote.price, d.ledger.balance);
      TradeOfIsJudged(ack, quote.price, d.ledger.balance);
      SettlingMovesOneStake(d.issued, d.ledger.settled, k, t);
      hide Judged, ResolveOutcome, PnlFor, Locked, Realised, OrderId;
      forall id | id in d'.ledger.settled ensures OnRecord(d', id) {
        if id != ack.orderId {
          assert OnRecord(d, id);
        }
      }
    }
  }

  /** Conservation of money: whatever is placed and settled, in whatever order and however often,
      free balance plus locked stakes is the starting balance plus realised profit, and every
      recorded trade belongs to the issued order of the same id. */
  lemma {:induction false} MoneyIsConserved(start: real, calls: seq<Call>)
    ensures Conserved(start, AnswerAll(start, calls))
  {
    if calls != [] {
      var d := AnswerAll(start, calls[..|calls| - 1]);
      MoneyIsConserved(start, calls[..|calls| - 1]);
      match calls[|calls| - 1]
      case Place(order) => PlaceConserves(start, d, order);
      case Settle(k, quote) => SettleConserves(start, d, k, quote);
    }
  }

  /** The balance never goes negative. */
  lemma {:induction false} NeverOverdrawn(start: real, calls: seq<Call>)
    requires start >= 0.0
    requires forall c :: c in calls && c.Place? ==> c.order.payoutRate >= -1.0
    ensures AnswerAll(start, calls).ledger.balance >= 0.0
    ensures forall a :: a in AnswerAll(start, calls).issued ==> a.request.stake > 0.0 && a.request.payoutRate >= -1.0
  {
    if calls != [] {
      var n := |calls| - 1;
      NeverOverdrawn(start, calls[..n]);
      var d := AnswerAll(start, calls[..n]);
      match calls[n]
      case Place(order) =>
        assert calls[n] in calls;
      case Settle(k, quote) =>
        if k < |d.issued| {
          var ack := d.issued[k];
          assert ack in d.issued;
          PnlAtLeastMinusStake(ResolveOutcome(ack.request.direction, ack.entryPrice, quote.price),
                               ack.request.stake, ack.request.payoutRate);
        }
    }
  }

  /** The first settlement of an order is final: after any further calls, settling it again with
      any quote answers the trade recorded first and changes nothing. */
  lemma {:induction false} SettlementIsFinal(start: real, calls: seq<Call>, more: seq<Call>, k: nat, again: Quote)
    requires var d := AnswerAll(start, calls);
             k < |d.issued| && d.issued[k].orderId in d.ledger.settled
    ensures var d, d' := AnswerAll(start, calls), AnswerAll(start, calls + more);
            && d.issued <= d'.issued
            && SettleOrder(d'.ledger, d.issued[k], again)
               == (d'.ledger, d.ledger.settled[d.issued[k].orderId])
  {
    if more == [] {
      assert calls + more == calls;
    } else {
      var n := |more| - 1;
      SettlementIsFinal(start, calls, more[..n], k, again);
      assert (calls + more)[..|calls + more| - 1] == calls + more[..n];
    }
  }

  // ---------- the order of settlement does not matter ----------

  type Settlements = seq<(OrderAck, Quote)>

  function SettleAll(b: Ledger, batch: Settlements): Ledger {
    if batch == [] then b
    else
      var (ack, quote) := batch[|batch| - 1];
      SettleOrder(SettleAll(b, batch[..|batch| - 1]), ack, quote).0
  }

  /** What settling one order adds to the balance. */
  function CreditOf(b: Ledger, s: (OrderAck, Quote)): real {
    if s.0.orderId in b.settled then 0.0
    else s.0.request.stake + TradeOf(s.0, s.1.price, 0.0).pnl
  }

  function CreditsOf(b: Ledger, batch: Settlements): real {
    if batch == [] then 0.0
    else CreditsOf(b, batch[..|batch| - 1]) + CreditOf(b, batch[|batch| - 1])
  }

  ghost predicate DistinctOrders(batch: Settlements) {
    forall i, j :: 0 <= i < j < |batch| ==> batch[i].0.orderId != batch[j].0.orderId
  }

  /** A trade without the running balance it happened to see. */
  function Verdict(t: Trade): Trade {
    t.(balanceAfter := 0.0)
  }

  /** What the ledger holds for `s` after a batch that contains it. */
  function VerdictOf(b: Ledger, s: (OrderAck, Quote)): Trade {
    Verdict(if s.0.orderId in b.settled then b.settled[s.0.orderId] else TradeOf(s.0, s.1.price, 0.0))
  }

  ghost predicate Names(batch: Settlements, id: string) {
    exists i :: 0 <= i < |batch| && batch[i].0.orderId == id
  }

  /** A batch settles the orders it names and leaves earlier settlements alone. */
  lemma {:induction false} SettleAllKeys(b: Ledger, batch: Settlements, id: string)
    ensures id in SettleAll(b, batch).settled <==> id in b.settled || Names(batch, id)
    ensures id in b.settled ==> SettleAll(b, batch).settled[id] == b.settled[id]
  {
    if batch != [] {
      var n := |batch| - 1;
      SettleAllKeys(b, batch[..n], id);
      if Names(batch[..n], id) {
        var i :| 0 <= i < n && batch[..n][i].0.orderId == id;
        assert batch[i].0.orderId == id;
      }
      if Names(batch, id) {
        var i :| 0 <= i < |batch| && batch[i].0.orderId == id;
        assert i < n ==> batch[..n][i].0.orderId == id;
      }
    }
  }

  lemma FrontIsDistinct(batch: Settlements, n: nat)
    requires DistinctOrders(batch) && |batch| == n + 1
    ensures DistinctOrders(batch[..n])
    ensures !Names(batch[..n], batch[n].0.orderId)
  {
    forall i | 0 <= i < n ensures batch[..n][i] == batch[i] {}
  }

  lemma {:induction false} SettleAllBalance(b: Ledger, batch: Settlements)
    requires DistinctOrders(batch)
    ensures SettleAll(b, batch).balance == b.balance + CreditsOf(b, batch)
  {
    if batch != [] {
      var n := |batch| - 1;
      FrontIsDistinct(batch, n);
      SettleAllBalance(b, batch[..n]);
      SettleAllKeys(b, batch[..n], batch[n].0.orderId);
    }
  }

  lemma {:induction false} SettleAllVerdict(b: Ledger, batch: Settlements, i: nat)
    requires DistinctOrders(batch) && i < |batch|
    ensures batch[i].0.orderId in SettleAll(b, batch).settled
    ensures Verdict(SettleAll(b, batch).settled[batch[i].0.orderId]) == VerdictOf(b, batch[i])
  {
    var n := |batch| - 1;
    FrontIsDistinct(batch, n);
    SettleAllKeys(b, batch[..n], batch[n].0.orderId);
    if i < n {
      SettleAllVerdict(b, batch[..n], i);
      assert batch[..n][i] == batch[i];
    }
  }

  lemma {:induction false} CreditsWithout(b: Ledger, batch: Settlements, j: nat)
    requires j < |batch|
    ensures CreditsOf(b, batch) == CreditsOf(b, batch[..j] + batch[j + 1..]) + CreditOf(b, batch[j])
  {
    var n := |batch| - 1;
    var rest := batch[..j] + batch[j + 1..];
    if j == n {
      assert rest == batch[..n];
    } else {
      CreditsWithout(b, batch[..n], j);
      var front := batch[..n];
      assert front[..j] == batch[..j] && front[j + 1..] == batch[j + 1..n];
      assert rest == front[..j] + front[j + 1..] + [batch[n]];
      assert rest[..|rest| - 1] == front[..j] + front[j + 1..];
    }
  }

  lemma {:induction false} CreditsPermute(b: Ledger, xs: Settlements, ys: Settlements)
    requires multiset(xs) == multiset(ys)
    ensures CreditsOf(b, xs) == CreditsOf(b, ys)
  {
    if xs == [] {
      assert |multiset(ys)| == 0;
    } else {
      var n := |xs| - 1;
      var x := xs[n];
      assert xs == xs[..n] + [x];
      assert x in multiset(ys);
      var j :| 0 <= j < |ys| && ys[j] == x;
      assert ys == ys[..j] + [x] + ys[j + 1..];
      assert multiset(xs) == multiset(xs[..n]) + multiset{x};
      assert multiset(ys) == multiset(ys[..j]) + multiset{x} + multiset(ys[j + 1..]);
      assert multiset(xs[..n]) == multiset(xs) - multiset{x};
      assert multiset(ys[..j] + ys[j + 1..]) == multiset(ys) - multiset{x};
      CreditsWithout(b, ys, j);
      CreditsPermute(b, xs[..n], ys[..j] + ys[j + 1..]);
    }
  }

  lemma NamedInBoth(xs: Settlements, ys: Settlements, id: string)
    requires multiset(xs) == multiset(ys)
    requires Names(xs, id)
    ensures exists i, j :: 0 <= i < |xs| && 0 <= j < |ys| && xs[i] == ys[j] && xs[i].0.orderId == id
  {
    var i :| 0 <= i < |xs| && xs[i].0.orderId == id;
    assert xs[i] in multiset(ys);
    var j :| 0 <= j < |ys| && ys[j] == xs[i];
  }

  lemma SameVerdict(b: Ledger, xs: Settlements, ys: Settlements, id: string)
    requires DistinctOrders(xs) && DistinctOrders(ys) && multiset(xs) == multiset(ys)
    ensures id in SettleAll(b, xs).settled <==> id in SettleAll(b, ys).settled
    ensures id in SettleAll(b, xs).settled ==>
              Verdict(SettleAll(b, xs).settled[id]) == Verdict(SettleAll(b, ys).settled[id])
  {
    SettleAllKeys(b, xs, id);
    SettleAllKeys(b, ys, id);
    if Names(ys, id) {
      NamedInBoth(ys, xs, id);
    }
    if Names(xs, id) {
      NamedInBoth(xs, ys, id);
      var i, j :| 0 <= i < |xs| && 0 <= j < |ys| && xs[i] == ys[j] && xs[i].0.orderId == id;
      SettleAllVerdict(b, xs, i);
      SettleAllVerdict(b, ys, j);
    }
  }

  /** Settling the same set of orders at the same quotes in any two orders leaves the same balance
      and the same verdict on every order; only the running `balance_after` stamps may differ. */
  lemma {:induction false} SettlementOrderIrrelevant(b: Ledger, xs: Settlements, ys: Settlements)
    requires DistinctOrders(xs) && DistinctOrders(ys) && multiset(xs) == multiset(ys)
    ensures var b1, b2 := SettleAll(b, xs), SettleAll(b, ys);
            && b1.balance == b2.balance
            && b1.settled.Keys == b2.settled.Keys
            && forall id :: id in b1.settled ==> Verdict(b1.settled[id]) == Verdict(b2.settled[id])
  {
    SettleAllBalance(b, xs);
    SettleAllBalance(b, ys);
    CreditsPermute(b, xs, ys);
    forall id
      ensures id in SettleAll(b, xs).settled <==> id in SettleAll(b, ys).settled
      ensures id in SettleAll(b, xs).settled ==>
                Verdict(SettleAll(b, xs).settled[id]) == Verdict(SettleAll(b, ys).settled[id])
    {
      SameVerdict(b, xs, ys, id);
    }
  }
}
