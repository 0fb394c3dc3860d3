/** Mirror symmetry of whole sessions: reflecting every price about the fixed paper entry price flips
    every signal and order and changes nothing else. */
module Mirror {
  import opened Models
  import opened Settlement
  import opened PaperBroker
  import opened Risk
  import opened Strategy
  import opened Session
  import opened SessionLaws
  import opened ClosedBars

  function MirrorPrice(p: real): real {
    2.0 * PAPER_ENTRY_PRICE - p
  }

  function MirrorCandle(c: Candle): Candle {
    c.(open := MirrorPrice(c.open), high := MirrorPrice(c.low), low := MirrorPrice(c.high),
       close := MirrorPrice(c.close))
  }

  function MirrorItem(item: Item): Item {
    match item
    case Bar(candle) => Bar(MirrorCandle(candle))
    case Gap(_, _, _) => item
  }

  function MirrorItems(items: seq<Item>): seq<Item> {
    seq(|items|, i requires 0 <= i < |items| => MirrorItem(items[i]))
  }

  function MirrorAck(ack: OrderAck): OrderAck {
    ack.(request := ack.request.(direction := Flip(ack.request.direction)))
  }

  function MirrorTrade(t: Trade): Trade {
    t.(ack := MirrorAck(t.ack), expiryPrice := MirrorPrice(t.expiryPrice))
  }

  function MirrorLog(log: seq<Trade>): seq<Trade> {
    seq(|log|, i requires 0 <= i < |log| => MirrorTrade(log[i]))
  }

  function MirrorLedger(b: Ledger): Ledger {
    b.(settled := map id | id in b.settled :: MirrorTrade(b.settled[id]))
  }

  function MirrorOpen(open: Option<OrderAck>): Option<OrderAck> {
    match open
    case None => None
    case Some(ack) => Some(MirrorAck(ack))
  }

  /** The same money, risk state and order numbers, with directions and prices reflected. */
  function MirrorMachine(m: Machine): Machine {
    Machine(MirrorLedger(m.ledger), m.risk, Reflect(PAPER_ENTRY_PRICE, m.closes), MirrorOpen(m.open),
            MirrorLog(m.log))
  }

  function MirrorProgress(p: Progress): Progress {
    p.(machine := MirrorMachine(p.machine))
  }

  lemma SettleOrderMirrors(b: Ledger, ack: OrderAck, q: Quote)
    requires ack.entryPrice == PAPER_ENTRY_PRICE
    ensures var (b', t) := SettleOrder(b, ack, q);
            SettleOrder(MirrorLedger(b), MirrorAck(ack), q.(price := MirrorPrice(q.price)))
            == (MirrorLedger(b'), MirrorTrade(t))
  {
    OppositeSides(ack.request.direction, ack.entryPrice, q.price);
    if ack.orderId !in b.settled {
      var (b', t) := SettleOrder(b, ack, q);
      assert MirrorLedger(b').settled == MirrorLedger(b).settled[ack.orderId := MirrorTrade(t)];
    }
  }

  lemma SettleMirrors(s: Settings, m: Machine, c: Candle)
    requires m.open.Some? ==> m.open.value.entryPrice == PAPER_ENTRY_PRICE
    ensures MaybeSettle(s, MirrorMachine(m), MirrorCandle(c)) == MirrorMachine(MaybeSettle(s, m, c))
  {
    if Expired(m, c) {
      hide SettleOrder, MirrorLedger;
      var q := Quote(c.asset, c.openTime, c.close);
      SettleOrderMirrors(m.ledger, m.open.value, q);
      var (b', t) := SettleOrder(m.ledger, m.open.value, q);
      assert MirrorLog(m.log + [t]) == MirrorLog(m.log) + [MirrorTrade(t)];
    }
  }

  lemma OpenMirrors(s: Settings, m: Machine, c: Candle, signal: Signal)
    ensures var (m', e) := MaybeOpen(s, m, c, signal);
            MaybeOpen(s, MirrorMachine(m), MirrorCandle(c), signal.(direction := Flip(signal.direction)))
            == (MirrorMachine(m'), e)
  {
    hide OrderId;
  }

  lemma {:induction false} StepMirrors(s: Settings, m: Machine, c: Candle)
    requires s.Valid() && (m.open.Some? ==> m.open.value.entryPrice == PAPER_ENTRY_PRICE)
    ensures var (m', e) := CandleStep(s, m, c);
            CandleStep(s, MirrorMachine(m), MirrorCandle(c)) == (MirrorMachine(m'), e)
  {
    if c.asset == s.asset {
      hide MaybeSettle, MaybeOpen, HistoryCross;
      SettleMirrors(s, m, c);
      var settled := MaybeSettle(s, m, c);
      var fed := settled.(closes := settled.closes + [c.close]);
      assert Reflect(PAPER_ENTRY_PRICE, fed.closes)
          == Reflect(PAPER_ENTRY_PRICE, settled.closes) + [MirrorPrice(c.close)];
      assert MirrorMachine(fed) == MirrorMachine(settled).(closes := Reflect(PAPER_ENTRY_PRICE, fed.closes));
      SignalReflects(s.SmaPeriods(), PAPER_ENTRY_PRICE, fed.closes);
      var signal := SignalFor(s.SmaPeriods(), fed.closes, c);
      if signal.Some? && fed.open.None? {
        OpenMirrors(s, fed, c, signal.value);
      }
    }
  }

  /** The mirrored run is the mirror of the run, gaps and exceptions included: every order is the
      opposite one, while every outcome, profit, balance, order number, risk counter and halt reason
      is the same at every step. */
  lemma {:induction false} SessionsAreMirrorSymmetric(s: Settings, items: seq<Item>)
    requires s.Valid()
    ensures Run(s, MirrorItems(items)) == MirrorProgress(Run(s, items))
  {
    if items == [] {
      assert MirrorMachine(Start(s)) == Start(s);
    } else {
      var n := |items| - 1;
      assert MirrorItems(items)[..n] == MirrorItems(items[..n]);
      SessionsAreMirrorSymmetric(s, items[..n]);
      RunKeepsBooks(s, items[..n]);
      FeedMirrors(s, Run(s, items[..n]), items[n]);
    }
  }

  lemma {:induction false} FeedMirrors(s: Settings, p: Progress, item: Item)
    requires s.Valid() && Booked(s, p.machine)
    ensures Feed(s, MirrorProgress(p), MirrorItem(item)) == MirrorProgress(Feed(s, p, item))
  {
    hide OrderId, SumPnl, Entry, CandleStep;
    if item.Bar? {
      StepMirrors(s, p.machine, item.candle);
    } else {
      assert Reflect(PAPER_ENTRY_PRICE, []) == [];
    }
  }

  // ---------- the same for a live stream ----------

  function MirrorMsg(msg: Msg): Msg {
    match msg
    case CandlePush(id, start, size, open, max, min, close, volume) =>
      CandlePush(id, start, size, MirrorPrice(open), MirrorPrice(min), MirrorPrice(max), MirrorPrice(close), volume)
    case _ => msg
  }

  function MirrorEpoch(epoch: seq<Msg>): seq<Msg> {
    seq(|epoch|, i requires 0 <= i < |epoch| => MirrorMsg(epoch[i]))
  }

  function MirrorEpochs(epochs: seq<seq<Msg>>): seq<seq<Msg>> {
    seq(|epochs|, i requires 0 <= i < |epochs| => MirrorEpoch(epochs[i]))
  }

  lemma MirrorItemsAppend(a: seq<Item>, b: seq<Item>)
    ensures MirrorItems(a + b) == MirrorItems(a) + MirrorItems(b)
  {
  }

  lemma MirrorEpochSplits(epoch: seq<Msg>)
    requires epoch != []
    ensures var n := |epoch| - 1;
            epoch == epoch[..n] + [epoch[n]]
            && MirrorEpoch(epoch) == MirrorEpoch(epoch[..n]) + [MirrorMsg(epoch[n])]
  {
  }

  lemma PushMirrors(src: Source, front: seq<Msg>, more: seq<Msg>, msg: Msg)
    ensures Pushes(src, front + [msg])
         == Pushes(src, front) + (if Matches(src, msg) then [ToCandle(msg, src.asset)] else [])
    ensures Pushes(src, more + [MirrorMsg(msg)])
         == Pushes(src, more) + (if Matches(src, msg) then [MirrorCandle(ToCandle(msg, src.asset))] else [])
  {
    assert (front + [msg])[..|front|] == front && (more + [MirrorMsg(msg)])[..|more|] == more;
  }

  lemma {:induction false} EpochMirrors(src: Source, epoch: seq<Msg>)
    ensures EpochItems(src, MirrorEpoch(epoch)) == MirrorItems(EpochItems(src, epoch))
    ensures var ps, qs := Pushes(src, epoch), Pushes(src, MirrorEpoch(epoch));
            |qs| == |ps| && (ps != [] ==> qs[|qs| - 1] == MirrorCandle(ps[|ps| - 1]))
  {
    if epoch != [] {
      var n := |epoch| - 1;
      var front, more, msg := epoch[..n], MirrorEpoch(epoch[..n]), epoch[n];
      EpochMirrors(src, front);
      MirrorEpochSplits(epoch);
      hide EpochItems, MirrorEpoch, MirrorItems, Pushes;
      EpochItemsStep(src, front, msg);
      EpochItemsStep(src, more, MirrorMsg(msg));
      PushMirrors(src, front, more, msg);
      var ps := Pushes(src, front);
      var closed := if Matches(src, msg) && ps != [] && ps[|ps| - 1].openTime != msg.windowStart
                    then [Bar(ps[|ps| - 1])] else [];
      MirrorItemsAppend(EpochItems(src, front), closed);
      MirrorOfFew(closed);
    }
  }

  lemma MirrorOfFew(closed: seq<Item>)
    ensures closed == [] ==> MirrorItems(closed) == []
    ensures |closed| == 1 && closed[0].Bar? ==> MirrorItems(closed) == [Bar(MirrorCandle(closed[0].candle))]
    ensures |closed| == 1 && closed[0].Gap? ==> MirrorItems(closed) == closed
  {
  }

  lemma {:induction false} StreamMirrors(src: Source, epochs: seq<seq<Msg>>)
    ensures Played(src, MirrorEpochs(epochs)) == MirrorItems(Played(src, epochs))
  {
    if epochs != [] {
      var n := |epochs| - 1;
      StreamMirrors(src, epochs[..n]);
      EpochMirrors(src, epochs[n]);
      assert MirrorEpochs(epochs)[..n] == MirrorEpochs(epochs[..n]);
      var front, items := Played(src, epochs[..n]), EpochItems(src, epochs[n]);
      hide EpochItems, MirrorItems, MirrorEpoch;
      MirrorItemsAppend(front, items);
      MirrorItemsAppend(front + items, [GapFor(src)]);
      MirrorOfFew([GapFor(src)]);
    }
  }

  /** Reflecting every price the server pushes mirrors the whole live run. */
  lemma LiveRunsAreMirrorSymmetric(s: Settings, src: Source, epochs: seq<seq<Msg>>)
    requires s.Valid()
    ensures Run(s, Played(src, MirrorEpochs(epochs))) == MirrorProgress(Run(s, Played(src, epochs)))
  {
    StreamMirrors(src, epochs);
    SessionsAreMirrorSymmetric(s, Played(src, epochs));
  }
}
