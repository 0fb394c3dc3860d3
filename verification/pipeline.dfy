/** Laws of the whole pipeline: what the live stream hands to the session, and what the session's
    signals are computed from. They hold for every list of epochs a network can deliver. */
module Pipeline {
  import opened Models
  import opened Strategy
  import opened Session
  import opened SessionSchedule
  import SessionLaws
  import opened ClosedBars
  import opened Exnova
  import opened RunSessions

  // ---------- where a bar comes from ----------

  function ClosesOf(bars: seq<Candle>): seq<real> {
    seq(|bars|, i requires 0 <= i < |bars| => bars[i].close)
  }

  function BarsOf(candles: seq<Candle>): seq<Item> {
    seq(|candles|, i requires 0 <= i < |candles| => Bar(candles[i]))
  }

  /** Nothing before a gap, or before the start, is seen after it. */
  lemma {:induction false} ClosesAfterGap(front: seq<Item>, candles: seq<Candle>)
    requires front != [] ==> front[|front| - 1].Gap?
    ensures ClosesSince(front + BarsOf(candles)) == ClosesOf(candles)
  {
    if candles == [] {
      assert front + BarsOf(candles) == front;
    } else {
      var n := |candles| - 1;
      ClosesAfterGap(front, candles[..n]);
      var all := front + BarsOf(candles);
      assert all[..|all| - 1] == front + BarsOf(candles[..n]);
      assert ClosesOf(candles) == ClosesOf(candles[..n]) + [candles[n].close];
    }
  }

  /** Item n is the r-th of these closed bars, and the closes seen there are exactly those of the
      first r+1 of them. */
  ghost predicate HeldAt(items: seq<Item>, n: nat, bars: seq<Candle>, r: nat) {
    && n < |items| && r < |bars| && items[n] == Bar(bars[r])
    && ClosesSince(items[..n + 1]) == ClosesOf(bars[..r + 1])
  }

  lemma HeldInFront(front: seq<Item>, more: seq<Item>, n: nat, bars: seq<Candle>, r: nat)
    requires HeldAt(front, n, bars, r)
    ensures HeldAt(front + more, n, bars, r)
  {
    hide ClosesSince, ClosesOf;
    assert (front + more)[..n + 1] == front[..n + 1];
  }

  lemma HeldInTail(front: seq<Item>, bars: seq<Candle>, gap: Item, r: nat)
    requires r < |bars| && (front != [] ==> front[|front| - 1].Gap?)
    ensures HeldAt(front + BarsOf(bars) + [gap], |front| + r, bars, r)
  {
    hide ClosesSince, ClosesOf;
    ClosesAfterGap(front, bars[..r + 1]);
    assert (front + BarsOf(bars) + [gap])[..|front| + r + 1] == front + BarsOf(bars[..r + 1]);
  }

  lemma BarInside(front: seq<Item>, bars: seq<Candle>, gap: Item, n: nat)
    requires |front| <= n < |front + BarsOf(bars) + [gap]| && gap.Gap?
    requires (front + BarsOf(bars) + [gap])[n].Bar?
    ensures n - |front| < |bars|
  {
  }

  /** Item n of the stream is the r-th closed bar of epoch e, with only that epoch's closes in view. */
  ghost predicate ComesFrom(src: Source, epochs: seq<seq<Msg>>, n: nat, e: nat, r: nat) {
    e < |epochs| && HeldAt(Played(src, epochs), n, Closed(Pushes(src, epochs[e])), r)
  }

  lemma PlayedParts(src: Source, epochs: seq<seq<Msg>>)
    requires epochs != []
    ensures var k := |epochs| - 1;
            Played(src, epochs)
            == Played(src, epochs[..k]) + BarsOf(Closed(Pushes(src, epochs[k]))) + [GapFor(src)]
  {
    hide Closed, Pushes;
  }

  lemma {:induction false} StillComesFrom(src: Source, epochs: seq<seq<Msg>>, n: nat, e: nat, r: nat)
    requires epochs != [] && ComesFrom(src, epochs[..|epochs| - 1], n, e, r)
    ensures ComesFrom(src, epochs, n, e, r)
  {
    hide Closed, Pushes, Played, HeldAt, BarsOf;
    var k := |epochs| - 1;
    PlayedParts(src, epochs);
    var front, tail := Played(src, epochs[..k]), BarsOf(Closed(Pushes(src, epochs[k]))) + [GapFor(src)];
    HeldInFront(front, tail, n, Closed(Pushes(src, epochs[e])), r);
    assert Played(src, epochs) == front + tail;
  }

  lemma {:induction false} LastBarIsPlayed(src: Source, epochs: seq<seq<Msg>>, r: nat)
    requires epochs != [] && r < |Closed(Pushes(src, epochs[|epochs| - 1]))|
    ensures ComesFrom(src, epochs, |Played(src, epochs[..|epochs| - 1])| + r, |epochs| - 1, r)
  {
    hide Closed, Pushes, Played, HeldAt, BarsOf;
    var k := |epochs| - 1;
    PlayedParts(src, epochs);
    GapsEndEpochs(src, epochs[..k]);
    HeldInTail(Played(src, epochs[..k]), Closed(Pushes(src, epochs[k])), GapFor(src), r);
  }

  lemma NothingIsPlayed(src: Source, epochs: seq<seq<Msg>>)
    requires epochs == []
    ensures Played(src, epochs) == []
  {
  }

  lemma PlayedSplit(src: Source, epochs: seq<seq<Msg>>, n: nat)
    requires n < |Played(src, epochs)| && Played(src, epochs)[n].Bar?
    ensures epochs != []
    ensures var k := |epochs| - 1;
            var front := Played(src, epochs[..k]);
            if n < |front| then front[n].Bar? else n - |front| < |Closed(Pushes(src, epochs[k]))|
  {
    hide Closed, Pushes, Played, BarsOf;
    if epochs == [] {
      NothingIsPlayed(src, epochs);
    }
    PlayedParts(src, epochs);
    var k := |epochs| - 1;
    var front, bars := Played(src, epochs[..k]), Closed(Pushes(src, epochs[k]));
    if n >= |front| {
      BarInside(front, bars, GapFor(src), n);
    }
  }

  lemma {:induction false} EveryBarHasItsEpoch(src: Source, epochs: seq<seq<Msg>>, n: nat)
    requires n < |Played(src, epochs)| && Played(src, epochs)[n].Bar?
    ensures exists e: nat, r: nat :: ComesFrom(src, epochs, n, e, r)
    decreases |epochs|
  {
    hide Closed, Pushes, Played, ComesFrom;
    PlayedSplit(src, epochs, n);
    var front := epochs[..|epochs| - 1];
    if n < |Played(src, front)| {
      EveryBarHasItsEpoch(src, front, n);
      var e: nat, r: nat :| ComesFrom(src, front, n, e, r);
      StillComesFrom(src, epochs, n, e, r);
    } else {
      LastBarIsPlayed(src, epochs, n - |Played(src, front)|);
    }
  }

  lemma GapsEndEpochs(src: Source, epochs: seq<seq<Msg>>)
    ensures var all := Played(src, epochs);
            all != [] ==> all[|all| - 1] == GapFor(src)
  {
    hide EpochItems;
  }

  // ---------- soundness of signals ----------

  /** `window` holds the closes of the final states of slow+1 consecutive windows, the r-th the
      newest, of epoch e, none of them its last and hence still forming one. */
  ghost predicate FromCompletedWindows(
    src: Source, epochs: seq<seq<Msg>>, slow: nat, window: seq<real>, newest: Item, e: nat, r: nat)
  {
    && e < |epochs|
    && var runs := Runs(Pushes(src, epochs[e]));
    && slow <= r && r + 1 < |runs|
    && newest == Bar(Final(runs[r]))
    && |window| == slow + 1
    && forall i :: 0 <= i <= slow ==> window[i] == Final(runs[r - slow + i]).close
  }

  /** At item n of the stream a session that has not raised obtains `signal` from its strategy. */
  ghost predicate Obtains(s: Settings, src: Source, epochs: seq<seq<Msg>>, n: nat, signal: Signal)
    requires s.Valid()
  {
    var items := Played(src, epochs);
    && n < |items| && items[n].Bar? && Run(s, items[..n]).error.None?
    && var c := items[n].candle;
       SignalFor(s.SmaPeriods(), Run(s, items[..n]).machine.closes + [c.close], c) == Some(signal)
  }

  /** Every signal a live session obtains, on any trace of pushes and connection losses, is the
      crossover of exactly slow+1 closes: the final states of slow+1 consecutive completed windows
      of one connection epoch. It never spans a reconnect and never uses a bar still forming. */
  lemma {:induction false} SignalsAreSound(s: Settings, src: Source, epochs: seq<seq<Msg>>, n: nat, signal: Signal)
    requires s.Valid()
    ensures Obtains(s, src, epochs, n, signal) ==>
              exists window, e, r ::
                && FromCompletedWindows(src, epochs, s.smaSlowPeriod, window, Played(src, epochs)[n], e, r)
                && Crossover(s.SmaPeriods(), window) == Some(signal.direction)
  {
    if Obtains(s, src, epochs, n, signal) {
      SignalIsSound(s, src, epochs, n, signal);
    }
  }

  lemma {:induction false} SignalIsSound(s: Settings, src: Source, epochs: seq<seq<Msg>>, n: nat, signal: Signal)
    requires s.Valid() && Obtains(s, src, epochs, n, signal)
    ensures exists window, e, r ::
              && FromCompletedWindows(src, epochs, s.smaSlowPeriod, window, Played(src, epochs)[n], e, r)
              && Crossover(s.SmaPeriods(), window) == Some(signal.direction)
  {
    hide Run, Played, Pushes, Crossover, HistoryCross, ClosesSince, Closed, ClosesOf, Window, FromCompletedWindows;
    var items, p := Played(src, epochs), s.SmaPeriods();
    var c := items[n].candle;
    StrategySeesClosesSinceGap(s, items[..n]);
    EveryBarHasItsEpoch(src, epochs, n);
    var e: nat, r: nat :| ComesFrom(src, epochs, n, e, r);
    OneMoreBar(items, n);
    var bars := Closed(Pushes(src, epochs[e]));
    var h := ClosesOf(bars[..r + 1]);
    WindowRefinesHistory(p, h);
    WindowIsCompleted(src, epochs, p.slow, bars, e, r);
  }

  lemma OneMoreBar(items: seq<Item>, n: nat)
    requires n < |items| && items[n].Bar?
    ensures ClosesSince(items[..n + 1]) == ClosesSince(items[..n]) + [items[n].candle.close]
  {
    assert items[..n + 1][..n] == items[..n];
  }

  lemma WindowOfCloses(bars: seq<Candle>, r: nat, slow: nat)
    requires r < |bars| && |Window(ClosesOf(bars[..r + 1]), slow + 1)| >= slow + 1
    ensures var window := Window(ClosesOf(bars[..r + 1]), slow + 1);
            && slow <= r && |window| == slow + 1
            && forall i :: 0 <= i <= slow ==> window[i] == bars[r - slow + i].close
  {
    var h := ClosesOf(bars[..r + 1]);
    var window := Window(h, slow + 1);
    assert |h| == r + 1 && window == h[r - slow..];
    forall i | 0 <= i <= slow ensures window[i] == bars[r - slow + i].close {
      assert window[i] == h[r - slow + i] == bars[..r + 1][r - slow + i].close;
    }
  }

  lemma WindowIsCompleted(src: Source, epochs: seq<seq<Msg>>, slow: nat, bars: seq<Candle>, e: nat, r: nat)
    requires e < |epochs| && bars == Closed(Pushes(src, epochs[e])) && r < |bars|
    requires |Window(ClosesOf(bars[..r + 1]), slow + 1)| >= slow + 1
    ensures FromCompletedWindows(src, epochs, slow, Window(ClosesOf(bars[..r + 1]), slow + 1), Bar(bars[r]), e, r)
  {
    hide Pushes, Runs, Window, ClosesOf;
    WindowOfCloses(bars, r, slow);
  }

  lemma {:induction false} EveryClosedBarIsPlayed(src: Source, epochs: seq<seq<Msg>>, e: nat, r: nat)
    requires e < |epochs| && r < |Closed(Pushes(src, epochs[e]))|
    ensures exists n: nat :: ComesFrom(src, epochs, n, e, r)
    decreases |epochs|
  {
    hide Closed, Pushes, Played, ComesFrom;
    var k := |epochs| - 1;
    if e < k {
      assert epochs[..k][e] == epochs[e];
      EveryClosedBarIsPlayed(src, epochs[..k], e, r);
      var n: nat :| ComesFrom(src, epochs[..k], n, e, r);
      StillComesFrom(src, epochs, n, e, r);
    } else {
      LastBarIsPlayed(src, epochs, r);
    }
  }

  /** Conversely, no window is missed: each completed window has its place in the stream, and a session
      that has not raised before it obtains there exactly the crossover of the final states of that
      window and the slow before it, once its connection has completed so many, and nothing earlier. */
  lemma {:induction false} EveryWindowIsDecided(s: Settings, src: Source, epochs: seq<seq<Msg>>, e: nat, r: nat)
    requires s.Valid() && e < |epochs| && r < |Closed(Pushes(src, epochs[e]))|
    ensures exists n: nat :: ComesFrom(src, epochs, n, e, r) && DecidedAt(s, src, epochs, n, e, r)
  {
    hide Closed, Pushes, ComesFrom, DecidedAt;
    EveryClosedBarIsPlayed(src, epochs, e, r);
    var n: nat :| ComesFrom(src, epochs, n, e, r);
    DecisionAtBar(s, src, epochs, n, e, r);
  }

  /** The decision of the session at item n is that of the windows r-slow to r of epoch e. */
  ghost predicate DecidedAt(s: Settings, src: Source, epochs: seq<seq<Msg>>, n: nat, e: nat, r: nat)
    requires s.Valid()
  {
    var items, p := Played(src, epochs), s.SmaPeriods();
    && n < |items| && items[n].Bar?
    && (Run(s, items[..n]).error.None? ==>
          var h := Run(s, items[..n]).machine.closes + [items[n].candle.close];
          if r < p.slow then HistoryCross(p, h) == None
          else FromCompletedWindows(src, epochs, p.slow, Window(h, p.slow + 1), items[n], e, r)
               && HistoryCross(p, h) == Crossover(p, Window(h, p.slow + 1)))
  }

  lemma {:induction false} DecisionAtBar(s: Settings, src: Source, epochs: seq<seq<Msg>>, n: nat, e: nat, r: nat)
    requires s.Valid() && ComesFrom(src, epochs, n, e, r)
    ensures DecidedAt(s, src, epochs, n, e, r)
  {
    hide Run, Played, Pushes, Crossover, HistoryCross, ClosesSince, Closed, ClosesOf, Window, FromCompletedWindows;
    var items, p := Played(src, epochs), s.SmaPeriods();
    if Run(s, items[..n]).error.None? {
      StrategySeesClosesSinceGap(s, items[..n]);
      OneMoreBar(items, n);
      var bars := Closed(Pushes(src, epochs[e]));
      var h := ClosesOf(bars[..r + 1]);
      WindowRefinesHistory(p, h);
      WindowLength(bars, r, p.slow);
      if r >= p.slow {
        WindowIsCompleted(src, epochs, p.slow, bars, e, r);
      }
    }
  }

  lemma WindowLength(bars: seq<Candle>, r: nat, slow: nat)
    requires r < |bars|
    ensures |Window(ClosesOf(bars[..r + 1]), slow + 1)| == if r < slow then r + 1 else slow + 1
  {
  }

  // ---------- signals in plain terms ----------

  /** The close prices on these messages. */
  function ClosesAt(epoch: seq<Msg>, at: seq<nat>): seq<real>
    requires forall i :: 0 <= i < |at| ==> at[i] < |epoch| && epoch[at[i]].CandlePush?
  {
    seq(|at|, i requires 0 <= i < |at| => epoch[at[i]].close)
  }

  /** `at` lists the closing messages of epoch e, and the r-th of them is item n of the stream. */
  ghost predicate ListedAt(src: Source, epochs: seq<seq<Msg>>, n: nat, e: nat, at: seq<nat>, r: nat) {
    && e < |epochs| && n < |Played(src, epochs)| && r < |at|
    && ShownAt(src, epochs[e], EpochItems(src, epochs[e]), at)
    && Played(src, epochs)[n] == EpochItems(src, epochs[e])[r]
  }

  lemma ShownArePushes(src: Source, epoch: seq<Msg>, bars: seq<Item>, at: seq<nat>)
    requires ShownAt(src, epoch, bars, at)
    ensures forall i :: 0 <= i < |at| ==> at[i] < |epoch| && epoch[at[i]].CandlePush?
  {
    hide ClosedBy;
  }

  lemma ShownCloses(src: Source, epoch: seq<Msg>, at: seq<nat>, r: nat)
    requires ShownAt(src, epoch, EpochItems(src, epoch), at) && r < |at|
    ensures forall i :: 0 <= i < |at| ==> at[i] < |epoch| && epoch[at[i]].CandlePush?
    ensures r < |Closed(Pushes(src, epoch))|
    ensures ClosesOf(Closed(Pushes(src, epoch))[..r + 1]) == ClosesAt(epoch, at[..r + 1])
  {
    hide ClosedBy, Closed, Pushes;
    var bars := Closed(Pushes(src, epoch));
    forall i | 0 <= i <= r ensures bars[i].close == epoch[at[i]].close {
      assert EpochItems(src, epoch)[i] == Bar(bars[i]);
    }
  }

  /** What a live session has decided on at item n: the close prices of the closing messages of one epoch,
      from its first to the one that is item n. */
  ghost predicate DecidedOn(s: Settings, src: Source, epochs: seq<seq<Msg>>, n: nat, h: seq<real>) {
    exists e: nat, at: seq<nat>, r: nat ::
      && ListedAt(src, epochs, n, e, at, r)
      && (forall i :: 0 <= i <= r ==> at[i] < |epochs[e]| && epochs[e][at[i]].CandlePush?)
      && h == ClosesAt(epochs[e], at[..r + 1])
  }

  lemma {:induction false} HistoryIsOfOneEpoch(s: Settings, src: Source, epochs: seq<seq<Msg>>, n: nat)
    requires s.Valid() && n < |Played(src, epochs)| && Played(src, epochs)[n].Bar?
    requires Run(s, Played(src, epochs)[..n]).error.None?
    ensures DecidedOn(s, src, epochs, n, Run(s, Played(src, epochs)[..n]).machine.closes
                                         + [Played(src, epochs)[n].candle.close])
  {
    hide Run, Played, Pushes, ClosesSince, Closed, ClosesOf, ShownAt, ClosesAt;
    var items := Played(src, epochs);
    StrategySeesClosesSinceGap(s, items[..n]);
    EveryBarHasItsEpoch(src, epochs, n);
    var e: nat, r: nat :| ComesFrom(src, epochs, n, e, r);
    OneMoreBar(items, n);
    BarsInPlainTerms(src, epochs[e]);
    var at :| ShownAt(src, epochs[e], EpochItems(src, epochs[e]), at);
    ShownLength(src, epochs[e], at);
    ShownCloses(src, epochs[e], at, r);
    assert ListedAt(src, epochs, n, e, at, r);
  }

  lemma ShownLength(src: Source, epoch: seq<Msg>, at: seq<nat>)
    requires ShownAt(src, epoch, EpochItems(src, epoch), at)
    ensures |at| == |Closed(Pushes(src, epoch))|
  {
    hide ClosedBy, Closed, Pushes;
  }

  /** A signal of a live session and what decided it, in the numbers of the messages: it is given at item
      n exactly when the closes of that epoch so far, summed, cross. */
  lemma {:induction false} SignalsInPlainTerms(s: Settings, src: Source, epochs: seq<seq<Msg>>, n: nat, d: Direction)
    requires s.Valid() && n < |Played(src, epochs)| && Played(src, epochs)[n].Bar?
    requires Run(s, Played(src, epochs)[..n]).error.None?
    ensures exists h ::
              && DecidedOn(s, src, epochs, n, h)
              && ((exists signal: Signal :: signal.direction == d && Obtains(s, src, epochs, n, signal))
                  <==> CrossesInSums(Periods(s.smaFastPeriod, s.smaSlowPeriod), h, d))
  {
    hide Run, Played, HistoryCross, CrossesInSums, DecidedOn;
    var c := Played(src, epochs)[n].candle;
    var h := Run(s, Played(src, epochs)[..n]).machine.closes + [c.close];
    HistoryIsOfOneEpoch(s, src, epochs, n);
    SignalInSums(s.SmaPeriods(), h, d);
    SignalNamesItsCandle(s.SmaPeriods(), h, c);
    if HistoryCross(s.SmaPeriods(), h) == Some(d) {
      assert Obtains(s, src, epochs, n, SignalFor(s.SmaPeriods(), h, c).value);
    }
  }

  // ---------- what the stream guarantees the session ----------

  function AllPushes(src: Source, epochs: seq<seq<Msg>>): seq<Candle> {
    if epochs == [] then [] else AllPushes(src, epochs[..|epochs| - 1]) + Pushes(src, epochs[|epochs| - 1])
  }

  lemma {:induction false} ClosedBarsArePushes(ps: seq<Candle>)
    ensures forall c :: c in Closed(ps) ==> c in ps
  {
    if ps != [] {
      var n := |ps| - 1;
      ClosedBarsArePushes(ps[..n]);
      ClosedStep(ps[..n], ps[n]);
      assert ps[..n] + [ps[n]] == ps;
    }
  }

  lemma {:induction false} PushesCarryAsset(src: Source, epoch: seq<Msg>)
    ensures forall c :: c in Pushes(src, epoch) ==> c.asset == src.asset
  {
    if epoch != [] {
      PushesCarryAsset(src, epoch[..|epoch| - 1]);
    }
  }

  /** Every candle yielded is one of the matching pushes, and carries the streamed asset. */
  lemma {:induction false} BarsArePushes(src: Source, epochs: seq<seq<Msg>>, i: nat)
    requires i < |Played(src, epochs)| && Played(src, epochs)[i].Bar?
    ensures Played(src, epochs)[i].candle in AllPushes(src, epochs)
    ensures Played(src, epochs)[i].candle.asset == src.asset
  {
    var k := |epochs| - 1;
    var front := Played(src, epochs[..k]);
    if i < |front| {
      hide EpochItems;
      BarsArePushes(src, epochs[..k], i);
    } else {
      ClosedBarsArePushes(Pushes(src, epochs[k]));
      PushesCarryAsset(src, epochs[k]);
    }
  }

  lemma ChronologicalAppend(front: seq<Item>, bars: seq<Candle>, gap: Item)
    requires Chronological(front) && StrictlyForward(bars) && gap.Gap?
    requires forall i, j :: 0 <= i < |front| && front[i].Bar? && 0 <= j < |bars| ==>
                              front[i].candle.openTime <= bars[j].openTime
    ensures Chronological(front + BarsOf(bars) + [gap])
  {
  }

  lemma NeverBackParts(a: seq<Candle>, b: seq<Candle>)
    requires NeverBack(a + b)
    ensures NeverBack(a) && NeverBack(b)
    ensures forall x, y :: x in a && y in b ==> x.openTime <= y.openTime
  {
    assert forall i :: 0 <= i < |a| ==> (a + b)[i] == a[i];
    assert forall i :: 0 <= i < |b| ==> (a + b)[|a| + i] == b[i];
  }

  /** If the server's windows never go back, over all connections, neither does the stream. */
  lemma {:induction false} StreamIsChronological(src: Source, epochs: seq<seq<Msg>>)
    requires NeverBack(AllPushes(src, epochs))
    ensures Chronological(Played(src, epochs))
  {
    if epochs != [] {
      var k := |epochs| - 1;
      var front, ps := Played(src, epochs[..k]), Pushes(src, epochs[k]);
      var before, bars := AllPushes(src, epochs[..k]), Closed(ps);
      assert AllPushes(src, epochs) == before + ps;
      PlayedParts(src, epochs);
      hide Played, AllPushes, Pushes, Closed, Chronological, StrictlyForward, NeverBack;
      NeverBackParts(before, ps);
      StreamIsChronological(src, epochs[..k]);
      ClosedBarsMoveForward(ps);
      ClosedBarsArePushes(ps);
      forall i, j | 0 <= i < |front| && front[i].Bar? && 0 <= j < |bars|
        ensures front[i].candle.openTime <= bars[j].openTime
      {
        BarsArePushes(src, epochs[..k], i);
        assert bars[j] in ps;
      }
      ChronologicalAppend(front, bars, GapFor(src));
    }
  }

  /** On a live stream of its own asset a tradable session never raises: the run processes every
      candle and ends only when a connection cannot be made or does not take the subscription. */
  lemma {:induction false} LiveRunsEndOnlyInConnectionErrors(s: Settings, src: Source, script: seq<Reply>)
    requires s.Valid() && Tradable(s) && src.asset == s.asset
    ensures var items := Emitted(src, s.asset, script);
            && FinalError(Run(s, items), src, s.asset, script) == EndError(EndOf(script))
            && Run(s, items).processed == CountBars(items)
  {
    hide Run, Played, Epochs, EndOf, Dial;
    var items := Emitted(src, s.asset, script);
    forall i | 0 <= i < |items| && items[i].Bar? ensures items[i].candle.asset == s.asset {
      BarsArePushes(src, Epochs(script), i);
    }
    TradableNeverRaises(s, items);
  }

  /** On such a stream with windows that never go back, the orders of a session are spaced by its
      expiry, so that a stretch of `last - first` seconds holds at most 1 + (last - first) / expiry. */
  lemma {:induction false} LiveOrderCountIsBounded(s: Settings, src: Source, epochs: seq<seq<Msg>>,
    first: int, last: int)
    requires s.Valid() && Tradable(s) && src.asset == s.asset
    requires NeverBack(AllPushes(src, epochs))
    requires forall c :: c in AllPushes(src, epochs) ==> first <= c.openTime <= last
    requires Run(s, Played(src, epochs)).machine.ledger.nextId > 1
    ensures (Run(s, Played(src, epochs)).machine.ledger.nextId - 2) * s.defaultExpiryS <= last - first
  {
    hide Run, Played, AllPushes;
    var items := Played(src, epochs);
    forall i | 0 <= i < |items| && items[i].Bar?
      ensures items[i].candle.asset == s.asset && first <= items[i].candle.openTime <= last
    {
      BarsArePushes(src, epochs, i);
    }
    TradableNeverRaises(s, items);
    StreamIsChronological(src, epochs);
    SessionLaws.BooksAgree(s, items);
    OrderCountIsBounded(s, items, first, last);
  }

  // ---------- what the session cannot notice ----------

  /** A message the stream cannot notice changes nothing about the session, anywhere in any epoch:
      one for another instrument, a heartbeat, any other push, an earlier state of a window. */
  lemma {:induction false} ForeignTrafficIsHarmless(s: Settings, src: Source, epochs: seq<seq<Msg>>, k: nat,
                                 a: seq<Msg>, msg: Msg, b: seq<Msg>)
    requires s.Valid() && k < |epochs| && epochs[k] == a + b && Unnoticed(src, a, msg, b)
    ensures Run(s, Played(src, epochs[k := a + [msg] + b])) == Run(s, Played(src, epochs))
  {
    hide Run, Played, EpochItems, Unnoticed;
    InvisibleExactlyWhenUnnoticed(src, a, msg, b);
    SameBarsSameStream(src, epochs, k, a + [msg] + b);
  }
}
