/** When a session opens and settles its orders, and when processing a candle can raise. */
module SessionSchedule {
  import opened Models
  import opened Settlement
  import opened PaperBroker
  import opened Risk
  import opened Strategy
  import opened Session
  import opened SessionLaws

  // ---------- the strategy sees the closes since the last gap ----------

  function ClosesSince(items: seq<Item>): seq<real> {
    if items == [] then []
    else
      match items[|items| - 1]
      case Gap(_, _, _) => []
      case Bar(c) => ClosesSince(items[..|items| - 1]) + [c.close]
  }

  lemma {:induction false} StrategySeesClosesSinceGap(s: Settings, items: seq<Item>)
    requires s.Valid() && Run(s, items).error.None?
    ensures Run(s, items).machine.closes == ClosesSince(items)
  {
    if items != [] {
      hide SignalFor, MaybeOpen, MaybeSettle;
      var n := |items| - 1;
      StrategySeesClosesSinceGap(s, items[..n]);
      if items[n].Bar? {
        StepAppendsClose(s, Run(s, items[..n]).machine, items[n].candle);
      }
    }
  }

  lemma StepAppendsClose(s: Settings, m: Machine, c: Candle)
    requires s.Valid() && c.asset == s.asset
    ensures CandleStep(s, m, c).0.closes == m.closes + [c.close]
  {
    hide SignalFor;
  }

  // ---------- one step, seen from outside ----------

  predicate Opened(m: Machine, m': Machine) {
    m'.ledger.nextId > m.ledger.nextId
  }

  /** A processed candle logs the open order iff it has expired, and opens at most one order,
      only when flat, in the direction of the signal and stamped with the candle's own time. */
  lemma StepShape(s: Settings, m: Machine, c: Candle)
    requires s.Valid() && Booked(s, m) && Gated(s, m) && CandleStep(s, m, c).1.None?
    ensures var m' := CandleStep(s, m, c).0;
            && (if Expired(m, c) then |m'.log| == |m.log| + 1 && m'.log[..|m.log|] == m.log
                                      && m'.log[|m.log|].ack == m.open.value
                                      && m'.log[|m.log|].expiryPrice == c.close
                else m'.log == m.log)
            && (if Opened(m, m') then (m.open.None? || Expired(m, c)) && m'.open.Some?
                                      && m'.open.value.request.openedAt == c.openTime
                                      && HistoryCross(s.SmaPeriods(), m.closes + [c.close])
                                         == Some(m'.open.value.request.direction)
                else m'.open == if Expired(m, c) then None else m.open)
  {
    hide Booked, Gated, OrderId, RecordTrade, HistoryCross, ResolveOutcome, PnlFor;
    if Expired(m, c) {
      FreshOrder(s, m);
    }
  }

  // ---------- the schedule of a run ----------

  /** Indices of the items at which an order was opened. */
  function Opens(s: Settings, items: seq<Item>): seq<nat>
    requires s.Valid()
  {
    if items == [] then []
    else
      var n := |items| - 1;
      Opens(s, items[..n])
      + (if Opened(Run(s, items[..n]).machine, Run(s, items).machine) then [n] else [])
  }

  /** Indices of the items at which a trade was logged. */
  function Settles(s: Settings, items: seq<Item>): seq<nat>
    requires s.Valid()
  {
    if items == [] then []
    else
      var n := |items| - 1;
      Settles(s, items[..n])
      + (if |Run(s, items).machine.log| > |Run(s, items[..n]).machine.log| then [n] else [])
  }

  /** The k-th order of the session, logged or still open. */
  function OrderNo(m: Machine, k: nat): OrderAck
    requires k < Orders(m)
  {
    if k < |m.log| then m.log[k].ack else m.open.value
  }

  /** The order was opened at item i, in the direction of the crossover of the closes seen there. */
  ghost predicate OpenedAt(p: Periods, items: seq<Item>, ack: OrderAck, i: nat)
    requires p.Valid()
  {
    && i < |items| && items[i].Bar? && items[i].candle.openTime == ack.request.openedAt
    && HistoryCross(p, ClosesSince(items[..i + 1])) == Some(ack.request.direction)
  }

  /** No candle in items[from..to] reaches the expiry of `ack`. */
  ghost predicate Waiting(items: seq<Item>, ack: OrderAck, from: nat, to: nat) {
    forall j :: from <= j < to <= |items| && items[j].Bar? ==> items[j].candle.openTime < ack.expiryAt
  }

  ghost predicate SettledAt(items: seq<Item>, t: Trade, i: nat, j: nat) {
    && i < j < |items| && items[j].Bar?
    && items[j].candle.openTime >= t.ack.expiryAt
    && items[j].candle.close == t.expiryPrice
    && Waiting(items, t.ack, i + 1, j)
  }

  /** Every order is opened at its own candle, as signalled there, and settled, in order and at most once, at the close
      of the first later candle at or past its expiry; the next one opens no sooner than that. */
  ghost predicate Scheduled(p: Periods, items: seq<Item>, m: Machine, opens: seq<nat>, settles: seq<nat>)
    requires p.Valid()
  {
    && |opens| == Orders(m) && |settles| == |m.log|
    && (forall k :: 0 <= k < |opens| ==> OpenedAt(p, items, OrderNo(m, k), opens[k]))
    && (forall k :: 0 <= k < |settles| ==> SettledAt(items, m.log[k], opens[k], settles[k]))
    && (m.open.Some? ==> Waiting(items, m.open.value, opens[|m.log|] + 1, |items|))
    && (forall k :: 0 <= k < |settles| && k + 1 < |opens| ==> settles[k] <= opens[k + 1])
  }

  lemma OpenedAtSurvives(p: Periods, items: seq<Item>, item: Item, ack: OrderAck, i: nat)
    requires p.Valid() && OpenedAt(p, items, ack, i)
    ensures OpenedAt(p, items + [item], ack, i)
  {
    hide HistoryCross, ClosesSince;
    assert (items + [item])[..i + 1] == items[..i + 1];
  }

  lemma {:induction false} ScheduleSurvivesItem(p: Periods, items: seq<Item>, item: Item, m: Machine,
                                                opens: seq<nat>, settles: seq<nat>)
    requires p.Valid() && Scheduled(p, items, m, opens, settles)
    requires m.open.Some? && item.Bar? ==> item.candle.openTime < m.open.value.expiryAt
    ensures Scheduled(p, items + [item], m, opens, settles)
  {
    hide OpenedAt;
    forall k | 0 <= k < |opens| ensures OpenedAt(p, items + [item], OrderNo(m, k), opens[k]) {
      OpenedAtSurvives(p, items, item, OrderNo(m, k), opens[k]);
    }
  }

  lemma OpenedInRange(p: Periods, items: seq<Item>, ack: OrderAck, i: nat)
    requires p.Valid() && OpenedAt(p, items, ack, i)
    ensures i < |items|
  {
  }

  lemma SettledAtSurvives(items: seq<Item>, item: Item, t: Trade, i: nat, j: nat)
    requires SettledAt(items, t, i, j)
    ensures SettledAt(items + [item], t, i, j)
  {
  }

  lemma WaitingSurvives(items: seq<Item>, item: Item, ack: OrderAck, from: nat)
    requires Waiting(items, ack, from, |items|)
    ensures Waiting(items + [item], ack, from, |items|)
  {
  }

  lemma {:induction false} ScheduleSettles(p: Periods, items: seq<Item>, c: Candle, m: Machine,
                                           opens: seq<nat>, settles: seq<nat>,
                        t: Trade, m': Machine)
    requires p.Valid() && Scheduled(p, items, m, opens, settles)
    requires Expired(m, c) && t.ack == m.open.value && t.expiryPrice == c.close
    requires m'.log == m.log + [t] && m'.open.None?
    ensures Scheduled(p, items + [Bar(c)], m', opens, settles + [|items|])
  {
    hide OpenedAt;
    forall k | 0 <= k < |opens| ensures OpenedAt(p, items + [Bar(c)], OrderNo(m', k), opens[k]) {
      assert OrderNo(m', k) == OrderNo(m, k);
      OpenedAtSurvives(p, items, Bar(c), OrderNo(m, k), opens[k]);
    }
    var n, z := |m.log|, settles + [|items|];
    assert OrderNo(m, n) == m.open.value;
    OpenedInRange(p, items, OrderNo(m, n), opens[n]);
    forall k | 0 <= k < |z| ensures SettledAt(items + [Bar(c)], m'.log[k], opens[k], z[k]) {
      if k < n {
        assert SettledAt(items, m.log[k], opens[k], settles[k]);
        SettledAtSurvives(items, Bar(c), m.log[k], opens[k], settles[k]);
      } else {
        WaitingSurvives(items, Bar(c), t.ack, opens[n] + 1);
      }
    }
    hide SettledAt, Waiting, OrderNo;
  }

  lemma ScheduleOpens(p: Periods, items: seq<Item>, c: Candle, m: Machine, opens: seq<nat>,
                      settles: seq<nat>, m': Machine)
    requires p.Valid() && Scheduled(p, items + [Bar(c)], m, opens, settles) && m.open.None?
    requires m'.log == m.log && m'.open.Some? && OpenedAt(p, items + [Bar(c)], m'.open.value, |items|)
    ensures Scheduled(p, items + [Bar(c)], m', opens + [|items|], settles)
  {
    hide OpenedAt;
    forall k | 0 <= k < |opens| ensures OrderNo(m', k) == OrderNo(m, k) {}
  }

  lemma {:induction false} RunIsScheduled(s: Settings, items: seq<Item>)
    requires s.Valid() && Run(s, items).error.None?
    ensures Scheduled(s.SmaPeriods(), items, Run(s, items).machine, Opens(s, items), Settles(s, items))
  {
    if items == [] {
    } else {
      var n := |items| - 1;
      var front, last := items[..n], items[n];
      assert items == front + [last];
      StepOfRun(s, front, last);
      hide Run, Opens, Settles, Scheduled, Booked, Gated, Feed;
      RunIsScheduled(s, front);
      RunKeepsBooks(s, front);
      ScheduleAdvances(s, front, last);
    }
  }

  lemma StepOfRun(s: Settings, front: seq<Item>, item: Item)
    requires s.Valid()
    ensures Run(s, front + [item]) == Feed(s, Run(s, front), item)
    ensures Run(s, front).error.Some? ==> Run(s, front + [item]) == Run(s, front)
  {
    assert (front + [item])[..|front|] == front;
  }

  lemma {:induction false} ScheduleAdvances(s: Settings, front: seq<Item>, item: Item)
    requires s.Valid() && Run(s, front + [item]).error.None?
    requires Scheduled(s.SmaPeriods(), front, Run(s, front).machine, Opens(s, front), Settles(s, front))
    requires Booked(s, Run(s, front).machine) && Gated(s, Run(s, front).machine)
    ensures var items := front + [item];
            Scheduled(s.SmaPeriods(), items, Run(s, items).machine, Opens(s, items), Settles(s, items))
  {
    var items := front + [item];
    assert items[..|items| - 1] == front;
    var m, m' := Run(s, front).machine, Run(s, items).machine;
    var opens, settles := Opens(s, front), Settles(s, front);
    assert Run(s, items) == Feed(s, Run(s, front), item);
    assert Opens(s, items) == opens + (if Opened(m, m') then [|front|] else []);
    assert Settles(s, items) == settles + (if |m'.log| > |m.log| then [|front|] else []);
    var p := s.SmaPeriods();
    hide Run, Opens, Settles, Booked, Gated, CandleStep, Scheduled, OpenedAt, HistoryCross, ClosesSince;
    match item
    case Gap(_, _, _) =>
      ScheduleSurvivesItem(p, front, item, m, opens, settles);
      ScheduleIgnoresCloses(p, items, m, m', opens, settles);
      assert opens + [] == opens && settles + [] == settles;
    case Bar(c) =>
      StepShape(s, m, c);
      StrategySeesClosesSinceGap(s, front);
      if Opened(m, m') {
        OpenedHere(p, front, c, m'.open.value);
      }
      StepSchedules(p, front, c, m, m', opens, settles);
  }

  lemma {:induction false} OpenedHere(p: Periods, front: seq<Item>, c: Candle, ack: OrderAck)
    requires p.Valid() && ack.request.openedAt == c.openTime
    requires HistoryCross(p, ClosesSince(front) + [c.close]) == Some(ack.request.direction)
    ensures OpenedAt(p, front + [Bar(c)], ack, |front|)
  {
    hide HistoryCross;
    var items := front + [Bar(c)];
    assert items[..|front| + 1] == items && items[..|items| - 1] == front;
  }

  lemma ScheduleIgnoresCloses(p: Periods, items: seq<Item>, m: Machine, m': Machine, opens: seq<nat>, settles: seq<nat>)
    requires p.Valid() && Scheduled(p, items, m, opens, settles) && m'.log == m.log && m'.open == m.open
    ensures Scheduled(p, items, m', opens, settles)
  {
    hide OpenedAt;
    forall k | 0 <= k < |opens| ensures OrderNo(m', k) == OrderNo(m, k) {}
  }

  lemma {:induction false} StepSchedules(p: Periods, front: seq<Item>, c: Candle, m: Machine, m': Machine,
                                         opens: seq<nat>, settles: seq<nat>)
    requires p.Valid() && Scheduled(p, front, m, opens, settles)
    requires if Expired(m, c) then |m'.log| == |m.log| + 1 && m'.log[..|m.log|] == m.log
                                   && m'.log[|m.log|].ack == m.open.value
                                   && m'.log[|m.log|].expiryPrice == c.close
             else m'.log == m.log
    requires if Opened(m, m') then (m.open.None? || Expired(m, c)) && m'.open.Some?
                                   && OpenedAt(p, front + [Bar(c)], m'.open.value, |front|)
             else m'.open == if Expired(m, c) then None else m.open
    ensures Scheduled(p, front + [Bar(c)], m', opens + (if Opened(m, m') then [|front|] else []),
                      settles + (if |m'.log| > |m.log| then [|front|] else []))
  {
    hide Scheduled, OpenedAt;
    var settled := m'.(open := if Expired(m, c) then None else m.open);
    var z := settles + (if |m'.log| > |m.log| then [|front|] else []);
    if Expired(m, c) {
      ScheduleSettles(p, front, c, m, opens, settles, m'.log[|m.log|], settled);
    } else {
      ScheduleSurvivesItem(p, front, Bar(c), m, opens, settles);
      ScheduleIgnoresCloses(p, front + [Bar(c)], m, settled, opens, settles);
      assert z == settles;
    }
    if Opened(m, m') {
      ScheduleOpens(p, front, c, settled, opens, z, m');
    } else {
      assert opens + [] == opens;
    }
  }

  // ---------- no opportunity is missed ----------

  /** What lets a candle open an order: a signal, no order left open once an expired one is settled, a
      breaker still active after that, and a balance that covers the stake. `m'` is the state after. */
  ghost predicate Opportunity(s: Settings, m: Machine, c: Candle, m': Machine)
    requires s.Valid()
  {
    && HistoryCross(s.SmaPeriods(), m.closes + [c.close]).Some?
    && (m.open.None? || c.openTime >= m.open.value.expiryAt)
    && m'.risk.state == ACTIVE
    && s.stakeAmount <= m'.ledger.balance + AtStake(s, m')
  }

  /** A candle that does not raise opens an order exactly on such an opportunity, also on the very
      candle that settles the order before. */
  lemma OpensExactlyOnOpportunity(s: Settings, m: Machine, c: Candle)
    requires s.Valid() && CandleStep(s, m, c).1.None?
    ensures Opened(m, CandleStep(s, m, c).0) <==> Opportunity(s, m, c, CandleStep(s, m, c).0)
  {
    hide HistoryCross, OrderId, RecordTrade, ResolveOutcome, PnlFor;
  }

  ghost predicate OpportunityAt(s: Settings, items: seq<Item>, n: nat)
    requires s.Valid()
  {
    && n < |items| && items[n].Bar?
    && Opportunity(s, Run(s, items[..n]).machine, items[n].candle, Run(s, items[..n + 1]).machine)
  }

  /** The orders of a run are opened exactly where it has the opportunity. */
  lemma {:induction false} OpensExactlyAtOpportunities(s: Settings, items: seq<Item>)
    requires s.Valid() && Run(s, items).error.None?
    ensures forall n: nat :: n in Opens(s, items) <==> OpportunityAt(s, items, n)
  {
    if items != [] {
      var k := |items| - 1;
      var front, item := items[..k], items[k];
      StepOfRun(s, front, item);
      assert items == front + [item];
      OpensExactlyAtOpportunities(s, front);
      OpensAtEnd(s, front, item);
      hide Run, Opens, Opportunity;
      forall n: nat ensures n in Opens(s, items) <==> OpportunityAt(s, items, n) {
        if n < k {
          assert front[..n] == items[..n] && front[..n + 1] == items[..n + 1] && front[n] == items[n];
        }
      }
    }
  }

  lemma {:induction false} OpensAtEnd(s: Settings, front: seq<Item>, item: Item)
    requires s.Valid() && Run(s, front + [item]).error.None?
    ensures var k, more := |front|, Opens(s, front + [item]);
            forall n :: n in more <==>
                          (n < k && n in Opens(s, front)) || (n == k && OpportunityAt(s, front + [item], k))
  {
    hide Run, Opportunity, CandleStep, HistoryCross;
    var items, k := front + [item], |front|;
    assert items[..k] == front && items[..k + 1] == items;
    StepOfRun(s, front, item);
    OpensAreItems(s, front);
    if item.Bar? {
      OpensExactlyOnOpportunity(s, Run(s, front).machine, item.candle);
    }
  }

  lemma {:induction false} OpensAreItems(s: Settings, items: seq<Item>)
    requires s.Valid()
    ensures forall n :: n in Opens(s, items) ==> n < |items|
  {
    if items != [] {
      hide Run;
      OpensAreItems(s, items[..|items| - 1]);
    }
  }

  // ---------- spacing, when candle times never go back ----------

  ghost predicate Chronological(items: seq<Item>) {
    forall i, j :: 0 <= i < j < |items| && items[i].Bar? && items[j].Bar? ==>
                     items[i].candle.openTime <= items[j].candle.openTime
  }

  /** Holding intervals do not overlap: an order is opened no sooner than the previous one expired. */
  lemma {:induction false} HoldingIntervalsAreDisjoint(s: Settings, items: seq<Item>, k: nat)
    requires s.Valid() && Run(s, items).error.None? && Chronological(items)
    requires k + 1 < Orders(Run(s, items).machine)
    ensures var m := Run(s, items).machine;
            OrderNo(m, k + 1).request.openedAt >= OrderNo(m, k).expiryAt
            == OrderNo(m, k).request.openedAt + s.defaultExpiryS
  {
    hide Run, Opens, Settles, Booked, Gated, OrderId;
    var m, opens, settles := Run(s, items).machine, Opens(s, items), Settles(s, items);
    RunIsScheduled(s, items);
    RunKeepsBooks(s, items);
    assert SettledAt(items, m.log[k], opens[k], settles[k]);
    assert OpenedAt(s.SmaPeriods(), items, OrderNo(m, k + 1), opens[k + 1]);
    EntryIsOwnOrder(s, m, k);
  }

  lemma EntryIsOwnOrder(s: Settings, m: Machine, k: nat)
    requires Booked(s, m) && k < |m.log|
    ensures OwnOrder(s, m.log[k].ack, k + 1)
  {
    hide OrderId, SumPnl, ResolveOutcome, PnlFor;
    assert Entry(s, m, k);
  }

  lemma {:induction false} OrdersAreSpaced(s: Settings, items: seq<Item>, k: nat)
    requires s.Valid() && Run(s, items).error.None? && Chronological(items)
    requires k < Orders(Run(s, items).machine)
    ensures var m := Run(s, items).machine;
            OrderNo(m, k).request.openedAt >= OrderNo(m, 0).request.openedAt + k * s.defaultExpiryS
  {
    if k > 0 {
      hide Run;
      OrdersAreSpaced(s, items, k - 1);
      HoldingIntervalsAreDisjoint(s, items, k - 1);
      assert k * s.defaultExpiryS == (k - 1) * s.defaultExpiryS + s.defaultExpiryS;
    }
  }

  /** Over candles between times `first` and `last` a session places at most
      1 + (last - first) / expiry orders. */
  lemma {:induction false} OrderCountIsBounded(s: Settings, items: seq<Item>, first: int, last: int)
    requires s.Valid() && Run(s, items).error.None? && Chronological(items)
    requires forall i :: 0 <= i < |items| && items[i].Bar? ==> first <= items[i].candle.openTime <= last
    requires Orders(Run(s, items).machine) > 0
    ensures (Orders(Run(s, items).machine) - 1) * s.defaultExpiryS <= last - first
  {
    hide Run, Opens, Settles;
    var m, opens := Run(s, items).machine, Opens(s, items);
    var k := Orders(m) - 1;
    RunIsScheduled(s, items);
    assert OpenedAt(s.SmaPeriods(), items, OrderNo(m, 0), opens[0]);
    assert OpenedAt(s.SmaPeriods(), items, OrderNo(m, k), opens[k]);
    OrdersAreSpaced(s, items, k);
  }

  // ---------- when a candle raises ----------

  /** The session reaches `open_position` on this candle: flat, signalled and let through. */
  predicate Attempts(s: Settings, m: Machine, c: Candle)
    requires s.Valid()
  {
    var settled := MaybeSettle(s, m, c);
    && SignalFor(s.SmaPeriods(), m.closes + [c.close], c).Some?
    && settled.open.None?
    && settled.risk.state == ACTIVE
    && s.stakeAmount <= settled.ledger.balance
  }

  predicate Tradable(s: Settings) {
    s.stakeAmount > 0.0 && s.defaultExpiryS in SUPPORTED_EXPIRY_SECONDS
  }

  /** Exactly when a candle raises, and what: the gate leaves only faults of the settings, and
      `InsufficientFunds` is out of reach. */
  lemma RaisesExactlyWhen(s: Settings, m: Machine, c: Candle)
    requires s.Valid()
    ensures var e := CandleStep(s, m, c).1;
            && (e == Some(WrongAsset) <==> c.asset != s.asset)
            && (e == Some(InsufficientBalance) <==>
                  c.asset == s.asset && Attempts(s, m, c) && s.stakeAmount <= 0.0)
            && (e == Some(UnsupportedExpiry) <==>
                  c.asset == s.asset && Attempts(s, m, c) && s.stakeAmount > 0.0
                  && s.defaultExpiryS !in SUPPORTED_EXPIRY_SECONDS)
            && (e.Some? ==> e.value in {WrongAsset, InsufficientBalance, UnsupportedExpiry})
  {
  }

  /** The fault a candle can hit: a foreign asset, or an order the broker must refuse. */
  ghost predicate Faulty(s: Settings, m: Machine, c: Candle)
    requires s.Valid()
  {
    c.asset != s.asset || (Attempts(s, m, c) && !Tradable(s))
  }

  ghost predicate FaultAt(s: Settings, items: seq<Item>, n: nat)
    requires s.Valid()
  {
    && n < |items| && items[n].Bar? && Run(s, items[..n]).error.None?
    && Faulty(s, Run(s, items[..n]).machine, items[n].candle)
  }

  lemma {:induction false} FaultAtEnd(s: Settings, front: seq<Item>, item: Item)
    requires s.Valid() && Run(s, front).error.None?
    ensures FaultAt(s, front + [item], |front|) <==> Run(s, front + [item]).error.Some?
  {
    StepOfRun(s, front, item);
    assert (front + [item])[..|front|] == front;
    hide Run, CandleStep, Attempts;
    if item.Bar? {
      RaisesExactlyWhen(s, Run(s, front).machine, item.candle);
    }
  }

  lemma {:induction false} FaultAtEarlier(s: Settings, front: seq<Item>, item: Item, k: nat)
    requires s.Valid() && (k < |front| || Run(s, front).error.Some?)
    ensures FaultAt(s, front + [item], k) <==> FaultAt(s, front, k)
  {
    hide Run, Faulty;
    var items := front + [item];
    if k < |front| {
      assert front[..k] == items[..k] && front[k] == items[k];
    } else if k == |front| {
      assert items[..k] == front;
    }
  }

  /** A run raises exactly when it reaches such a candle. */
  lemma {:induction false} RunRaisesExactlyOnFault(s: Settings, items: seq<Item>)
    requires s.Valid()
    ensures Run(s, items).error.Some? <==> exists n: nat :: FaultAt(s, items, n)
  {
    if items == [] {
      assert forall n: nat :: !FaultAt(s, items, n);
    } else {
      var n := |items| - 1;
      var front, item := items[..n], items[n];
      assert items == front + [item];
      RunRaisesExactlyOnFault(s, front);
      StepOfRun(s, front, item);
      hide Run, Feed, FaultAt;
      forall k: nat | k < n || Run(s, front).error.Some?
        ensures FaultAt(s, items, k) <==> FaultAt(s, front, k)
      {
        FaultAtEarlier(s, front, item, k);
      }
      if Run(s, front).error.None? {
        FaultAtEnd(s, front, item);
        FaultAtBound(s, items);
      }
    }
  }

  lemma FaultAtBound(s: Settings, items: seq<Item>)
    requires s.Valid()
    ensures forall k: nat :: FaultAt(s, items, k) ==> k < |items|
  {
  }

  function CountBars(items: seq<Item>): nat {
    if items == [] then 0
    else CountBars(items[..|items| - 1]) + (if items[|items| - 1].Bar? then 1 else 0)
  }

  ghost predicate AllFor(asset: string, items: seq<Item>) {
    forall i :: 0 <= i < |items| && items[i].Bar? ==> items[i].candle.asset == asset
  }

  /** A run that did not raise has processed every candle. */
  lemma {:induction false} ProcessedCountsBars(s: Settings, items: seq<Item>)
    requires s.Valid() && Run(s, items).error.None?
    ensures Run(s, items).processed == CountBars(items)
  {
    if items != [] {
      hide CandleStep;
      ProcessedCountsBars(s, items[..|items| - 1]);
    }
  }

  /** With a positive stake and a supported expiry no run on the session's own asset ever raises,
      and every candle is processed. */
  lemma {:induction false} TradableNeverRaises(s: Settings, items: seq<Item>)
    requires s.Valid() && Tradable(s) && AllFor(s.asset, items)
    ensures Run(s, items).error.None? && Run(s, items).processed == CountBars(items)
  {
    if items != [] {
      hide CandleStep, Attempts;
      var n := |items| - 1;
      assert AllFor(s.asset, items[..n]);
      TradableNeverRaises(s, items[..n]);
      if items[n].Bar? {
        RaisesExactlyWhen(s, Run(s, items[..n]).machine, items[n].candle);
      }
    }
  }

  /** Without them nothing is ever bought: the first attempt raises, with no money moved. */
  lemma {:induction false} UntradableNeverTrades(s: Settings, items: seq<Item>)
    requires s.Valid() && !Tradable(s)
    ensures Run(s, items).machine == Start(s).(closes := Run(s, items).machine.closes)
  {
    hide Run, OrderId;
    RunKeepsBooks(s, items);
    var m := Run(s, items).machine;
    forall id ensures id !in m.ledger.settled {
      assert id in m.ledger.settled ==> Logged(m.log, id);
    }
    assert m.ledger.settled == map[];
  }

  /** A run that raised stands, but for the strategy's history, where its processed prefix left it,
      has the schedule of that prefix, and counts its candles. */
  lemma {:induction false} RaisedRunIsScheduled(s: Settings, items: seq<Item>, n: nat)
    requires s.Valid() && FaultAt(s, items, n)
    ensures var m := Run(s, items[..n]).machine;
            && Run(s, items).machine == m.(closes := Run(s, items).machine.closes)
            && Run(s, items).processed == CountBars(items[..n])
            && Scheduled(s.SmaPeriods(), items[..n], m, Opens(s, items[..n]), Settles(s, items[..n]))
  {
    hide Run, Opens, Settles, Scheduled, CandleStep, Attempts;
    var front, item := items[..n], items[n];
    RunIsScheduled(s, front);
    ProcessedCountsBars(s, front);
    FaultAtEarlier(s, front + [item], item, n);
    assert (front + [item])[..n] == front;
    assert FaultAt(s, front + [item], n);
    FaultAtEnd(s, front, item);
    StepOfRun(s, front, item);
    assert items == (front + [item]) + items[n + 1..];
    ErrorsAreFinal(s, front + [item], items[n + 1..]);
    if item.candle.asset == s.asset {
      UntradableNeverTrades(s, front);
      UntradableNeverTrades(s, front + [item]);
    } else {
      ForeignCandleChangesNothing(s, Run(s, front).machine, item.candle);
    }
  }

  lemma ForeignCandleChangesNothing(s: Settings, m: Machine, c: Candle)
    requires s.Valid() && c.asset != s.asset
    ensures CandleStep(s, m, c) == (m, Some(WrongAsset))
  {
  }
}
