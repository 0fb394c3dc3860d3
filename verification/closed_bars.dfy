/** What the closed-candle stream is supposed to emit, stated without the streaming loop
    (src/botafuturo/adapters/exnova/market_data.py, src/botafuturo/adapters/exnova/mapping.py).

    The messages received on one authenticated connection form an epoch. The matching candle pushes
    of an epoch fall into maximal runs of equal `open_time`; every run but the last has closed, and
    its final push is the closed candle. A lost connection shows as one gap between epochs. */
module ClosedBars {
  import opened Models

  /** A well-formed server message. */
  datatype Msg =
    | CandlePush(activeId: int, windowStart: int, size: int, open: real, max: real, min: real, close: real,
                 volume: real)
    | TimeSync
    | Authenticated(ok: bool)
    | Other

  /** What the adapter was configured and asked to stream. */
  datatype Source = Source(asset: string, activeId: int, timeframeS: int)

  /** `mapping.to_candle` */
  function ToCandle(msg: Msg, asset: string): Candle
    requires msg.CandlePush?
  {
    Candle(asset, msg.windowStart, msg.open, msg.max, msg.min, msg.close, msg.volume, msg.size)
  }

  predicate Matches(src: Source, msg: Msg) {
    msg.CandlePush? && msg.activeId == src.activeId
  }

  function Pushes(src: Source, epoch: seq<Msg>): seq<Candle> {
    if epoch == [] then []
    else
      var last := epoch[|epoch| - 1];
      Pushes(src, epoch[..|epoch| - 1])
      + (if Matches(src, last) then [ToCandle(last, src.asset)] else [])
  }

  // ---------- runs of pushes for one window ----------

  function Flatten(runs: seq<seq<Candle>>): seq<Candle> {
    if runs == [] then [] else Flatten(runs[..|runs| - 1]) + runs[|runs| - 1]
  }

  /** `r` is a nonempty run of pushes for one window. */
  ghost predicate OneWindow(r: seq<Candle>) {
    r != [] && forall i :: 0 <= i < |r| ==> r[i].openTime == r[0].openTime
  }

  /** `runs` cuts `ps` into its maximal runs of equal open time. */
  ghost predicate MaximalRuns(ps: seq<Candle>, runs: seq<seq<Candle>>) {
    && Flatten(runs) == ps
    && (forall i :: 0 <= i < |runs| ==> OneWindow(runs[i]))
    && (forall i :: 0 < i < |runs| ==> runs[i - 1][0].openTime != runs[i][0].openTime)
  }

  function Runs(ps: seq<Candle>): (runs: seq<seq<Candle>>)
    ensures runs == [] <==> ps == []
    ensures forall i :: 0 <= i < |runs| ==> runs[i] != []
  {
    if ps == [] then []
    else
      var n := |ps| - 1;
      var front := Runs(ps[..n]);
      if n > 0 && ps[n - 1].openTime == ps[n].openTime
      then front[..|front| - 1] + [front[|front| - 1] + [ps[n]]]
      else front + [[ps[n]]]
  }

  lemma LastOfFlatten(runs: seq<seq<Candle>>)
    requires runs != [] && runs[|runs| - 1] != []
    ensures var ps, last := Flatten(runs), runs[|runs| - 1];
            ps != [] && ps[|ps| - 1] == last[|last| - 1]
  {
  }

  lemma FlattenAppend(runs: seq<seq<Candle>>, r: seq<Candle>)
    ensures Flatten(runs + [r]) == Flatten(runs) + r
  {
    assert (runs + [r])[..|runs|] == runs;
  }

  lemma ExtendLastRun(ps: seq<Candle>, runs: seq<seq<Candle>>, c: Candle)
    requires MaximalRuns(ps, runs) && runs != [] && ps != [] && ps[|ps| - 1].openTime == c.openTime
    ensures var k := |runs| - 1;
            MaximalRuns(ps + [c], runs[..k] + [runs[k] + [c]])
  {
    var k := |runs| - 1;
    var last, longer := runs[k], runs[..k] + [runs[k] + [c]];
    assert OneWindow(last);
    LastOfFlatten(runs);
    FlattenAppend(runs[..k], last + [c]);
    assert Flatten(runs[..k]) + (last + [c]) == Flatten(runs) + [c];
    forall i | 0 <= i < |longer| ensures OneWindow(longer[i]) {
      assert OneWindow(runs[i]);
    }
  }

  lemma EmptyFlatten(ps: seq<Candle>, runs: seq<seq<Candle>>)
    requires Flatten(runs) == ps && runs == []
    ensures ps == []
  {
  }

  lemma StartNewRun(ps: seq<Candle>, runs: seq<seq<Candle>>, c: Candle)
    requires MaximalRuns(ps, runs) && (ps != [] ==> ps[|ps| - 1].openTime != c.openTime)
    ensures MaximalRuns(ps + [c], runs + [[c]])
  {
    hide Flatten;
    var longer := runs + [[c]];
    FlattenAppend(runs, [c]);
    forall i | 0 <= i < |longer| ensures OneWindow(longer[i]) {
      assert i < |runs| ==> OneWindow(runs[i]);
    }
    if runs != [] {
      var last := runs[|runs| - 1];
      assert OneWindow(last);
      LastOfFlatten(runs);
      assert last[|last| - 1].openTime == last[0].openTime;
    } else {
      EmptyFlatten(ps, runs);
    }
  }

  lemma {:induction false} RunsAreMaximal(ps: seq<Candle>)
    ensures MaximalRuns(ps, Runs(ps))
  {
    if ps != [] {
      hide MaximalRuns;
      var n := |ps| - 1;
      var front := Runs(ps[..n]);
      RunsAreMaximal(ps[..n]);
      assert ps[..n] + [ps[n]] == ps;
      if n > 0 && ps[n - 1].openTime == ps[n].openTime {
        ExtendLastRun(ps[..n], front, ps[n]);
      } else {
        StartNewRun(ps[..n], front, ps[n]);
      }
    } else {
      assert MaximalRuns([], []);
    }
  }

  lemma DropSingleton(ps: seq<Candle>, runs: seq<seq<Candle>>, c: Candle)
    requires MaximalRuns(ps, runs + [[c]])
    ensures ps != [] && ps[|ps| - 1] == c
    ensures MaximalRuns(ps[..|ps| - 1], runs)
    ensures |ps| > 1 ==> ps[|ps| - 2].openTime != c.openTime
  {
    var all := runs + [[c]];
    FlattenAppend(runs, [c]);
    forall i | 0 <= i < |runs| ensures OneWindow(runs[i]) && runs[i] == all[i] {
      assert OneWindow(all[i]);
    }
    if runs != [] {
      LastOfFlatten(runs);
      assert all[|runs| - 1][0].openTime != all[|runs|][0].openTime;
    } else {
      assert Flatten(runs) == [];
    }
  }

  lemma ShorterWindow(r: seq<Candle>, c: Candle)
    requires r != [] && OneWindow(r + [c])
    ensures OneWindow(r) && r[0] == (r + [c])[0] && r[|r| - 1].openTime == c.openTime
  {
    assert (r + [c])[|r|] == c;
    forall i | 0 <= i < |r| ensures r[i] == (r + [c])[i] {}
  }

  lemma DropLastPush(ps: seq<Candle>, runs: seq<seq<Candle>>, r: seq<Candle>, c: Candle)
    requires r != [] && MaximalRuns(ps, runs + [r + [c]])
    ensures |ps| > 1 && ps[|ps| - 1] == c && ps[|ps| - 2].openTime == c.openTime
    ensures MaximalRuns(ps[..|ps| - 1], runs + [r])
  {
    var all, shorter := runs + [r + [c]], runs + [r];
    FlattenAppend(runs, r + [c]);
    FlattenAppend(runs, r);
    LastOfFlatten(shorter);
    hide Flatten;
    assert ps == Flatten(shorter) + [c];
    assert OneWindow(all[|runs|]) && all[|runs|] == r + [c];
    ShorterWindow(r, c);
    hide OneWindow;
    forall i | 0 <= i < |shorter| ensures OneWindow(shorter[i]) {
      assert OneWindow(all[i]);
    }
    forall i | 0 < i < |shorter| ensures shorter[i - 1][0].openTime != shorter[i][0].openTime {
      assert all[i - 1][0].openTime != all[i][0].openTime;
    }
  }

  /** There is only one way to cut pushes into maximal runs. */
  lemma {:induction false} MaximalRunsAreUnique(ps: seq<Candle>, runs: seq<seq<Candle>>)
    requires MaximalRuns(ps, runs)
    ensures runs == Runs(ps)
    decreases |ps|
  {
    if runs != [] {
      var k := |runs| - 1;
      var last := runs[k];
      assert OneWindow(last);
      var c, r := last[|last| - 1], last[..|last| - 1];
      assert last == r + [c];
      assert runs == runs[..k] + [r + [c]];
      hide MaximalRuns;
      if r == [] {
        assert runs == runs[..k] + [[c]];
        DropSingleton(ps, runs[..k], c);
        MaximalRunsAreUnique(ps[..|ps| - 1], runs[..k]);
      } else {
        DropLastPush(ps, runs[..k], r, c);
        MaximalRunsAreUnique(ps[..|ps| - 1], runs[..k] + [r]);
        var front := Runs(ps[..|ps| - 1]);
        assert front[..|front| - 1] == runs[..k];
      }
    }
  }

  function Final(r: seq<Candle>): Candle
    requires r != []
  {
    r[|r| - 1]
  }

  /** The final state of every run but the last. */
  function Closed(ps: seq<Candle>): seq<Candle> {
    var runs := Runs(ps);
    if runs == [] then [] else seq(|runs| - 1, i requires 0 <= i < |runs| - 1 => Final(runs[i]))
  }

  /** The stated meaning of the stream, for any cut into maximal runs. */
  lemma ClosedMeansFinalStates(ps: seq<Candle>, runs: seq<seq<Candle>>)
    requires MaximalRuns(ps, runs) && runs != []
    ensures |Closed(ps)| == |runs| - 1
    ensures forall i :: 0 <= i < |runs| - 1 ==> runs[i] != [] && Closed(ps)[i] == Final(runs[i])
  {
    MaximalRunsAreUnique(ps, runs);
  }

  lemma {:induction false} FinalRunEndsThePushes(ps: seq<Candle>)
    requires ps != []
    ensures Final(Runs(ps)[|Runs(ps)| - 1]) == ps[|ps| - 1]
  {
  }

  /** One more push closes a bar exactly when it opens a new window, and the bar is the push before. */
  lemma ClosedStep(ps: seq<Candle>, c: Candle)
    ensures Closed(ps + [c])
         == Closed(ps) + (if ps != [] && ps[|ps| - 1].openTime != c.openTime then [ps[|ps| - 1]] else [])
  {
    var runs, more := Runs(ps), Runs(ps + [c]);
    assert (ps + [c])[..|ps|] == ps;
    if ps != [] {
      FinalRunEndsThePushes(ps);
      assert (ps + [c])[|ps| - 1] == ps[|ps| - 1];
      if ps[|ps| - 1].openTime == c.openTime {
        assert more == runs[..|runs| - 1] + [runs[|runs| - 1] + [c]];
      } else {
        assert more == runs + [[c]];
      }
      hide Runs;
    }
  }

  // ---------- consequences ----------

  ghost predicate NeverBack(ps: seq<Candle>) {
    forall i, j :: 0 <= i < j < |ps| ==> ps[i].openTime <= ps[j].openTime
  }

  ghost predicate StrictlyForward(bars: seq<Candle>) {
    forall i, j :: 0 <= i < j < |bars| ==> bars[i].openTime < bars[j].openTime
  }

  /** If the server's windows never go back, closed candles come out strictly forward in time, and
      all of them before the window still forming. */
  lemma {:induction false} ClosedBarsMoveForward(ps: seq<Candle>)
    requires NeverBack(ps)
    ensures StrictlyForward(Closed(ps))
    ensures forall i :: 0 <= i < |Closed(ps)| ==> Closed(ps)[i].openTime < ps[|ps| - 1].openTime
  {
    if ps != [] {
      var n := |ps| - 1;
      ClosedBarsMoveForward(ps[..n]);
      ClosedStep(ps[..n], ps[n]);
      assert ps[..n] + [ps[n]] == ps;
    }
  }

  /** What becomes closed where `qs` follows `ps`: the last window of `ps`, unless `qs` goes on with it. */
  function Junction(ps: seq<Candle>, qs: seq<Candle>): seq<Candle> {
    if ps != [] && qs != [] && ps[|ps| - 1].openTime != qs[0].openTime then [ps[|ps| - 1]] else []
  }

  /** Closed candles of a concatenation. */
  lemma {:induction false} ClosedConcat(ps: seq<Candle>, qs: seq<Candle>)
    ensures Closed(ps + qs) == Closed(ps) + Junction(ps, qs) + Closed(qs)
  {
    NothingClosed();
    hide Closed;
    if qs == [] {
      assert ps + qs == ps;
    } else {
      var n := |qs| - 1;
      ClosedConcat(ps, qs[..n]);
      ClosedStep(ps + qs[..n], qs[n]);
      ClosedStep(qs[..n], qs[n]);
      assert ps + qs == (ps + qs[..n]) + [qs[n]] && qs == qs[..n] + [qs[n]];
      if n == 0 {
        assert ps + qs[..n] == ps;
      }
    }
  }

  lemma NothingClosed()
    ensures Closed([]) == []
  {
  }

  /** A further push `e` between `ps` and `qs` leaves no trace: it joins the window that follows, repeats
      the candle before it, or belongs to the window still forming at the end. */
  predicate Traceless(ps: seq<Candle>, e: Candle, qs: seq<Candle>) {
    if qs == [] then ps == [] || ps[|ps| - 1].openTime == e.openTime
    else qs[0].openTime == e.openTime || (ps != [] && ps[|ps| - 1] == e)
  }

  lemma {:induction false} TracelessExactlyWhenSameClosed(ps: seq<Candle>, e: Candle, qs: seq<Candle>)
    ensures Closed(ps + [e] + qs) == Closed(ps + qs) <==> Traceless(ps, e, qs)
  {
    ClosedConcat(ps + [e], qs);
    ClosedConcat(ps, qs);
    hide Closed, Junction, Traceless;
    var before, after := Closed(ps), Closed(qs);
    var with, without := Junction(ps, [e]) + Junction([e], qs), Junction(ps, qs);
    LoneJunction(ps, e, qs);
    assert Closed(ps + [e] + qs) == before + with + after;
    SameMiddle(before, with, without, after);
    JunctionThrough(ps, e, qs);
  }

  lemma LoneJunction(ps: seq<Candle>, e: Candle, qs: seq<Candle>)
    ensures Closed(ps + [e]) == Closed(ps) + Junction(ps, [e])
    ensures Junction(ps + [e], qs) == Junction([e], qs)
  {
    ClosedStep(ps, e);
  }

  lemma JunctionThrough(ps: seq<Candle>, e: Candle, qs: seq<Candle>)
    ensures Junction(ps, [e]) + Junction([e], qs) == Junction(ps, qs) <==> Traceless(ps, e, qs)
  {
    var a, b, c := Junction(ps, [e]), Junction([e], qs), Junction(ps, qs);
    if a == [] {
      assert a + b == b;
    } else if b == [] {
      assert a + b == a;
    } else {
      assert |a + b| == 2;
    }
  }

  lemma SameMiddle(a: seq<Candle>, x: seq<Candle>, y: seq<Candle>, b: seq<Candle>)
    ensures a + x + b == a + y + b <==> x == y
  {
    if a + x + b == a + y + b {
      assert |x| == |y|;
      assert x == (a + x + b)[|a|..|a| + |x|];
      assert y == (a + y + b)[|a|..|a| + |y|];
    }
  }

  lemma {:induction false} PushesConcat(src: Source, a: seq<Msg>, b: seq<Msg>)
    ensures Pushes(src, a + b) == Pushes(src, a) + Pushes(src, b)
  {
    if b == [] {
      assert a + b == a;
    } else {
      var n := |b| - 1;
      PushesConcat(src, a, b[..n]);
      assert (a + b)[..|a + b| - 1] == a + b[..n];
    }
  }

  // ---------- the stream in plain terms ----------

  /** `c` is the candle of `asset` that `msg` shows, field by field. */
  ghost predicate Shows(src: Source, msg: Msg, c: Candle) {
    && msg.CandlePush?
    && c.asset == src.asset && c.openTime == msg.windowStart
    && c.open == msg.open && c.high == msg.max && c.low == msg.min && c.close == msg.close
    && c.volume == msg.volume && c.timeframeS == msg.size
  }

  /** A push of the streamed instrument. */
  predicate IsPush(src: Source, msg: Msg) {
    msg.CandlePush? && msg.activeId == src.activeId
  }

  ghost predicate QuietBetween(src: Source, epoch: seq<Msg>, i: int, j: int) {
    forall k :: i < k < j && 0 <= k < |epoch| ==> !IsPush(src, epoch[k])
  }

  /** Message i is the last push of its window: message j is the next push, and of another window. */
  ghost predicate ClosedBy(src: Source, epoch: seq<Msg>, i: nat, j: nat) {
    && i < j < |epoch| && IsPush(src, epoch[i]) && IsPush(src, epoch[j])
    && epoch[i].windowStart != epoch[j].windowStart
    && QuietBetween(src, epoch, i, j)
  }

  /** `last` is the index of the last push, or -1. */
  ghost predicate LastPushIs(src: Source, epoch: seq<Msg>, last: int) {
    && -1 <= last < |epoch| && (last >= 0 ==> IsPush(src, epoch[last]))
    && QuietBetween(src, epoch, last, |epoch|)
  }

  /** `at` lists, in order, the messages that close: one for each bar, which it shows. */
  ghost predicate ShownAt(src: Source, epoch: seq<Msg>, bars: seq<Item>, at: seq<nat>) {
    && |at| == |bars|
    && (forall r :: 0 <= r < |at| ==>
          at[r] < |epoch| && bars[r].Bar? && Shows(src, epoch[at[r]], bars[r].candle))
    && (forall r, t :: 0 <= r < t < |at| ==> at[r] < at[t])
    && (forall i: nat :: i in at <==> exists j: nat :: ClosedBy(src, epoch, i, j))
  }

  // ---------- a whole stream ----------

  function EpochItems(src: Source, epoch: seq<Msg>): seq<Item> {
    var bars := Closed(Pushes(src, epoch));
    seq(|bars|, i requires 0 <= i < |bars| => Bar(bars[i]))
  }

  function GapFor(src: Source): Item {
    Gap(src.asset, src.timeframeS, "reconnect")
  }

  /** Everything yielded over epochs that all ended in a lost connection. */
  function Played(src: Source, epochs: seq<seq<Msg>>): seq<Item> {
    if epochs == [] then []
    else
      var n := |epochs| - 1;
      Played(src, epochs[..n]) + EpochItems(src, epochs[n]) + [GapFor(src)]
  }

  lemma {:induction false} EpochItemsStep(src: Source, epoch: seq<Msg>, msg: Msg)
    ensures var ps := Pushes(src, epoch);
            EpochItems(src, epoch + [msg])
            == EpochItems(src, epoch)
               + (if Matches(src, msg) && ps != [] && ps[|ps| - 1].openTime != msg.windowStart
                  then [Bar(ps[|ps| - 1])] else [])
  {
    hide Closed;
    assert (epoch + [msg])[..|epoch|] == epoch;
    assert Pushes(src, epoch) + [] == Pushes(src, epoch);
    if Matches(src, msg) {
      ClosedStep(Pushes(src, epoch), ToCandle(msg, src.asset));
    }
  }

  /** An epoch with its last push, and the bars shown so far. */
  ghost predicate Told(src: Source, epoch: seq<Msg>, last: int, at: seq<nat>) {
    && LastPushIs(src, epoch, last) && ShownAt(src, epoch, EpochItems(src, epoch), at)
    && (if last < 0 then Pushes(src, epoch) == []
        else Pushes(src, epoch) != [] && Shows(src, epoch[last], Pushes(src, epoch)[|Pushes(src, epoch)| - 1]))
    && forall r :: 0 <= r < |at| ==> at[r] < last
  }

  lemma {:induction false} EpochIsTold(src: Source, epoch: seq<Msg>) returns (last: int, at: seq<nat>)
    ensures Told(src, epoch, last, at)
  {
    if epoch == [] {
      last, at := -1, [];
      NothingTold(src);
    } else {
      var n := |epoch| - 1;
      var front, msg := epoch[..n], epoch[n];
      assert epoch == front + [msg];
      last, at := EpochIsTold(src, front);
      EpochItemsStep(src, front, msg);
      PushesStep(src, front, msg);
      if !IsPush(src, msg) {
        QuietMessage(src, front, msg, last, at);
      } else {
        var closes := last >= 0 && front[last].windowStart != msg.windowStart;
        PushMessage(src, front, msg, last, at);
        last, at := n, if closes then at + [last] else at;
      }
    }
  }

  /** The stream of an epoch, without candles, runs or the buffer: exactly the last push of each window
      that a push of another window follows is yielded, in order, and shown field by field. */
  lemma {:induction false} BarsInPlainTerms(src: Source, epoch: seq<Msg>)
    ensures exists at :: ShownAt(src, epoch, EpochItems(src, epoch), at)
  {
    hide EpochItems, ShownAt;
    var last, at := EpochIsTold(src, epoch);
  }

  lemma NothingTold(src: Source)
    ensures Told(src, [], -1, [])
  {
  }

  lemma PushesStep(src: Source, epoch: seq<Msg>, msg: Msg)
    ensures Pushes(src, epoch + [msg])
         == Pushes(src, epoch) + (if IsPush(src, msg) then [ToCandle(msg, src.asset)] else [])
  {
    assert (epoch + [msg])[..|epoch|] == epoch;
  }

  /** A message that is no push closes nothing. */
  lemma QuietMessage(src: Source, epoch: seq<Msg>, msg: Msg, last: int, at: seq<nat>)
    requires Told(src, epoch, last, at) && !IsPush(src, msg)
    requires EpochItems(src, epoch + [msg]) == EpochItems(src, epoch)
    requires Pushes(src, epoch + [msg]) == Pushes(src, epoch)
    ensures Told(src, epoch + [msg], last, at)
  {
    hide EpochItems, Pushes;
    var more := epoch + [msg];
    forall i: nat, j: nat ensures ClosedBy(src, more, i, j) <==> ClosedBy(src, epoch, i, j) {
      ClosedByFront(src, epoch, msg, i, j);
    }
    hide ClosedBy;
    assert forall i: nat :: i in at <==> exists j: nat :: ClosedBy(src, more, i, j);
  }

  lemma ClosedByFront(src: Source, epoch: seq<Msg>, msg: Msg, i: nat, j: nat)
    ensures j != |epoch| ==> (ClosedBy(src, epoch + [msg], i, j) <==> ClosedBy(src, epoch, i, j))
    ensures !IsPush(src, msg) ==> (ClosedBy(src, epoch + [msg], i, j) <==> ClosedBy(src, epoch, i, j))
  {
    if j < |epoch| {
      assert forall k :: 0 <= k < |epoch| ==> (epoch + [msg])[k] == epoch[k];
    }
  }

  /** A push closes the push before it exactly when that is of another window. */
  lemma ClosedByLast(src: Source, epoch: seq<Msg>, msg: Msg, last: int, i: nat)
    requires LastPushIs(src, epoch, last) && IsPush(src, msg)
    ensures ClosedBy(src, epoch + [msg], i, |epoch|) <==>
              i == last && epoch[last].windowStart != msg.windowStart
  {
    var more := epoch + [msg];
    assert forall k :: 0 <= k < |epoch| ==> more[k] == epoch[k];
    if i < last {
      assert IsPush(src, more[last]);
    }
  }

  /** What closes once a push has come: what closed before, and the push before it if of another window. */
  lemma ClosersAfterPush(src: Source, epoch: seq<Msg>, msg: Msg, last: int, i: nat)
    requires LastPushIs(src, epoch, last) && IsPush(src, msg)
    ensures (exists j: nat :: ClosedBy(src, epoch + [msg], i, j)) <==>
              || (exists j: nat :: ClosedBy(src, epoch, i, j))
              || (i == last && epoch[last].windowStart != msg.windowStart)
  {
    var more, n := epoch + [msg], |epoch|;
    ClosedByLast(src, epoch, msg, last, i);
    forall j: nat ensures j != n ==> (ClosedBy(src, more, i, j) <==> ClosedBy(src, epoch, i, j)) {
      ClosedByFront(src, epoch, msg, i, j);
    }
    forall j: nat ensures ClosedBy(src, epoch, i, j) ==> j < n {
      if ClosedBy(src, epoch, i, j) {
        InRange(src, epoch, i, j);
      }
    }
    hide ClosedBy, LastPushIs;
    if exists j: nat :: ClosedBy(src, epoch, i, j) {
      var j: nat :| ClosedBy(src, epoch, i, j);
      assert ClosedBy(src, more, i, j);
    }
  }

  lemma PushMessage(src: Source, epoch: seq<Msg>, msg: Msg, last: int, at: seq<nat>)
    requires Told(src, epoch, last, at) && IsPush(src, msg)
    requires EpochItems(src, epoch + [msg])
          == EpochItems(src, epoch)
             + (if Matches(src, msg) && Pushes(src, epoch) != []
                   && Pushes(src, epoch)[|Pushes(src, epoch)| - 1].openTime != msg.windowStart
                then [Bar(Pushes(src, epoch)[|Pushes(src, epoch)| - 1])] else [])
    requires Pushes(src, epoch + [msg]) == Pushes(src, epoch) + [ToCandle(msg, src.asset)]
    ensures var closes := last >= 0 && epoch[last].windowStart != msg.windowStart;
            Told(src, epoch + [msg], |epoch|, if closes then at + [last] else at)
  {
    hide EpochItems, Pushes, ClosedBy, ShownAt, LastPushIs, Shows;
    var more, n := epoch + [msg], |epoch|;
    var items := EpochItems(src, epoch);
    LastPushNow(src, epoch, msg, last);
    var closes := last >= 0 && epoch[last].windowStart != msg.windowStart;
    var longer := if closes then at + [last] else at;
    if last >= 0 {
      ShowsWindow(src, epoch[last], Pushes(src, epoch)[|Pushes(src, epoch)| - 1]);
    }
    forall i: nat ensures i in longer <==> exists j: nat :: ClosedBy(src, more, i, j) {
      ClosersAfterPush(src, epoch, msg, last, i);
      ShownAtListsClosers(src, epoch, items, at, i);
    }
    if closes {
      OneMoreShown(src, epoch, msg, items, Bar(Pushes(src, epoch)[|Pushes(src, epoch)| - 1]), at, last);
    } else {
      assert items + [] == items;
      SameShown(src, epoch, msg, items, at);
    }
  }

  lemma LastPushNow(src: Source, epoch: seq<Msg>, msg: Msg, last: int)
    requires IsPush(src, msg) && LastPushIs(src, epoch, last)
    ensures LastPushIs(src, epoch + [msg], |epoch|) && last < |epoch|
    ensures Shows(src, (epoch + [msg])[|epoch|], ToCandle(msg, src.asset))
    ensures last >= 0 ==> epoch[last].CandlePush?
  {
  }

  lemma ShowsWindow(src: Source, msg: Msg, c: Candle)
    requires Shows(src, msg, c)
    ensures msg.CandlePush? && c.openTime == msg.windowStart
  {
  }

  lemma ShownAtListsClosers(src: Source, epoch: seq<Msg>, bars: seq<Item>, at: seq<nat>, i: nat)
    requires ShownAt(src, epoch, bars, at)
    ensures i in at <==> exists j: nat :: ClosedBy(src, epoch, i, j)
  {
  }

  lemma SameShown(src: Source, epoch: seq<Msg>, msg: Msg, bars: seq<Item>, at: seq<nat>)
    requires ShownAt(src, epoch, bars, at)
    requires forall i: nat :: i in at <==> exists j: nat :: ClosedBy(src, epoch + [msg], i, j)
    ensures ShownAt(src, epoch + [msg], bars, at)
  {
    hide ClosedBy, Shows;
  }

  lemma OneMoreShown(src: Source, epoch: seq<Msg>, msg: Msg, bars: seq<Item>, bar: Item, at: seq<nat>, i: nat)
    requires ShownAt(src, epoch, bars, at) && i < |epoch| && bar.Bar? && Shows(src, epoch[i], bar.candle)
    requires forall r :: 0 <= r < |at| ==> at[r] < i
    requires forall i': nat :: i' in at + [i] <==> exists j: nat :: ClosedBy(src, epoch + [msg], i', j)
    ensures ShownAt(src, epoch + [msg], bars + [bar], at + [i])
  {
    hide ClosedBy, Shows;
  }

  lemma InRange(src: Source, epoch: seq<Msg>, i: nat, j: nat)
    requires ClosedBy(src, epoch, i, j)
    ensures i < j < |epoch|
  {
  }

  /** Messages that are no push of the streamed instrument can be inserted or removed anywhere in an epoch. */
  lemma ForeignMessageIsInvisible(src: Source, a: seq<Msg>, msg: Msg, b: seq<Msg>)
    requires !msg.CandlePush? || msg.activeId != src.activeId
    ensures EpochItems(src, a + [msg] + b) == EpochItems(src, a + b)
  {
    PushesConcat(src, a + [msg], b);
    PushesConcat(src, a, b);
    assert (a + [msg])[..|a|] == a;
    assert Pushes(src, a + [msg]) == Pushes(src, a);
  }

  /** A message the stream cannot notice between `a` and `b`. */
  predicate Unnoticed(src: Source, a: seq<Msg>, msg: Msg, b: seq<Msg>) {
    Matches(src, msg) ==> Traceless(Pushes(src, a), ToCandle(msg, src.asset), Pushes(src, b))
  }

  lemma OneMorePush(src: Source, a: seq<Msg>, msg: Msg, b: seq<Msg>)
    requires Matches(src, msg)
    ensures Pushes(src, a + [msg] + b) == Pushes(src, a) + [ToCandle(msg, src.asset)] + Pushes(src, b)
    ensures Pushes(src, a + b) == Pushes(src, a) + Pushes(src, b)
  {
    PushesConcat(src, a + [msg], b);
    PushesConcat(src, a, b);
    assert (a + [msg])[..|a|] == a;
  }

  lemma SameItemsExactlyWhenSameClosed(src: Source, x: seq<Msg>, y: seq<Msg>)
    ensures EpochItems(src, x) == EpochItems(src, y) <==> Closed(Pushes(src, x)) == Closed(Pushes(src, y))
  {
    hide Closed, Pushes;
    if EpochItems(src, x) == EpochItems(src, y) {
      var p, q := Closed(Pushes(src, x)), Closed(Pushes(src, y));
      assert |p| == |EpochItems(src, x)| == |q|;
      forall i | 0 <= i < |p| ensures p[i] == q[i] {
        assert EpochItems(src, x)[i] == Bar(p[i]) && EpochItems(src, y)[i] == Bar(q[i]);
      }
    }
  }

  /** Exactly these messages can be inserted or removed. */
  lemma {:induction false} InvisibleExactlyWhenUnnoticed(src: Source, a: seq<Msg>, msg: Msg, b: seq<Msg>)
    ensures EpochItems(src, a + [msg] + b) == EpochItems(src, a + b) <==> Unnoticed(src, a, msg, b)
  {
    hide Closed, EpochItems, Pushes, Traceless;
    if Matches(src, msg) {
      OneMorePush(src, a, msg, b);
      TracelessExactlyWhenSameClosed(Pushes(src, a), ToCandle(msg, src.asset), Pushes(src, b));
      SameItemsExactlyWhenSameClosed(src, a + [msg] + b, a + b);
    } else {
      ForeignMessageIsInvisible(src, a, msg, b);
    }
  }

  /** Among them every live update of a window that is pushed again, whatever comes in between. */
  lemma LiveUpdateIsInvisible(src: Source, a: seq<Msg>, msg: Msg, b: seq<Msg>)
    requires Matches(src, msg) && Pushes(src, b) != [] && Pushes(src, b)[0].openTime == msg.windowStart
    ensures EpochItems(src, a + [msg] + b) == EpochItems(src, a + b)
  {
    hide EpochItems, Pushes;
    InvisibleExactlyWhenUnnoticed(src, a, msg, b);
  }

  /** Epochs that emit the same bars can replace each other in a whole stream. */
  lemma {:induction false} SameBarsSameStream(src: Source, epochs: seq<seq<Msg>>, k: nat, other: seq<Msg>)
    requires k < |epochs|
    ensures EpochItems(src, epochs[k]) == EpochItems(src, other) ==>
              Played(src, epochs[k := other]) == Played(src, epochs)
  {
    hide EpochItems;
    var n := |epochs| - 1;
    if k == n {
      assert epochs[k := other][..n] == epochs[..n];
    } else {
      assert epochs[k := other][..n] == epochs[..n][k := other];
      SameBarsSameStream(src, epochs[..n], k, other);
    }
  }
}
