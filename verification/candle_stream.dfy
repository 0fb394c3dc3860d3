/** The generator `stream_closed_candles` (src/botafuturo/adapters/exnova/market_data.py), resumed
    once per yielded item, proved against the declarative meaning of the stream in `ClosedBars`. */
module CandleStreaming {
  import opened Models
  import opened ClosedBars
  import opened Backoff
  import opened Exnova

  // ---------- what holds at every suspension, on values ----------

  /** The generator with everything it can see: the transports to come and opened, the sleeps, the
      epochs lost and the one running, the items yielded, the one-slot buffer and the counter. */
  datatype Snapshot = Snapshot(
    ahead: seq<Reply>, wires: seq<Wire>, slept: seq<real>, lost: seq<seq<Msg>>, atGap: bool,
    epoch: seq<Msg>, yielded: seq<Item>, pending: Option<Candle>, attempt: nat)
  {
    /** What the transport in use can still deliver. */
    function Rest(): seq<Msg> {
      if wires == [] then [] else wires[|wires| - 1].incoming
    }
  }

  function Latest(ps: seq<Candle>): Option<Candle> {
    if ps == [] then None else Some(ps[|ps| - 1])
  }

  function BothFrames(src: Source, ssid: string): seq<Frame> {
    [Authenticate(ssid), Subscribe(src.activeId, src.timeframeS)]
  }

  /** Every transport was sent exactly one authentication and one subscription, and only the last
      one is still open. */
  ghost predicate Disciplined(wires: seq<Wire>, ssid: string, src: Source) {
    forall i :: 0 <= i < |wires| ==>
      && wires[i].sent == BothFrames(src, ssid)
      && wires[i].closed == (i < |wires| - 1)
  }

  /** All epochs: the lost ones, the running one with what it still holds, and those to come. */
  function Timeline(s: Snapshot): seq<seq<Msg>> {
    s.lost + (if s.atGap then [] else [s.epoch + s.Rest()]) + Epochs(s.ahead)
  }

  function Output(src: Source, lost: seq<seq<Msg>>, atGap: bool, epoch: seq<Msg>): seq<Item> {
    Played(src, lost) + (if atGap then [] else EpochItems(src, epoch))
  }

  ghost predicate Connected(src: Source, ssid: string, script: seq<Reply>, s: Snapshot) {
    && s.wires != [] && |s.wires| == |s.lost| + (if s.atGap then 0 else 1)
    && Disciplined(s.wires, ssid, src)
    && Epochs(script) == Timeline(s) && EndOf(script) == EndOf(s.ahead)
    && (s.atGap ==> s.Rest() == [])
    && |s.slept| == |s.wires| - 1 && SleepsWithin(src, s.lost, s.slept)
  }

  /** Output, buffer and counter are functions of the messages seen. */
  ghost predicate Buffered(src: Source, s: Snapshot) {
    && s.yielded == Output(src, s.lost, s.atGap, s.epoch)
    && s.pending == (if s.atGap then None else Latest(Pushes(src, s.epoch)))
    && s.attempt == (if !s.atGap && Resets(src, s.epoch) then 0 else Attempt(src, s.lost))
  }

  ghost predicate Steady(src: Source, ssid: string, script: seq<Reply>, s: Snapshot) {
    Connected(src, ssid, script, s) && Buffered(src, s)
  }

  // ---------- the moves ----------

  /** The connection is lost: discard the buffer, count, yield a gap. */
  function Lose(src: Source, s: Snapshot): Snapshot {
    s.(lost := s.lost + [s.epoch], epoch := [], atGap := true, yielded := s.yielded + [GapFor(src)],
       pending := None, attempt := s.attempt + 1)
  }

  /** One message is received: buffer a matching push, yielding the buffered one if its window closed. */
  function Consume(src: Source, s: Snapshot): Snapshot
    requires s.wires != [] && s.Rest() != []
  {
    var k, msg := |s.wires| - 1, s.Rest()[0];
    var t := s.(wires := s.wires[k := s.wires[k].(incoming := s.Rest()[1..])], epoch := s.epoch + [msg]);
    if Matches(src, msg) then
      var candle := ToCandle(msg, src.asset);
      var rolledOver := s.pending.Some? && s.pending.value.openTime != candle.openTime;
      t.(attempt := 0, pending := Some(candle),
         yielded := s.yielded + (if rolledOver then [Bar(s.pending.value)] else []))
    else if msg.TimeSync? then t.(attempt := 0)
    else t
  }

  /** A new transport replaces the dead one. */
  function Replace(s: Snapshot, w: Wire, slept: real): Snapshot
    requires s.wires != []
  {
    var k := |s.wires| - 1;
    s.(wires := s.wires[k := s.wires[k].(closed := true)] + [w], ahead := Later(s.ahead),
       slept := s.slept + [slept], atGap := false, epoch := [])
  }

  lemma LoseEpoch(src: Source, lost: seq<seq<Msg>>, epoch: seq<Msg>)
    ensures Played(src, lost + [epoch])
         == Played(src, lost) + EpochItems(src, epoch) + [Gap(src.asset, src.timeframeS, "reconnect")]
    ensures Attempt(src, lost + [epoch]) == (if Resets(src, epoch) then 0 else Attempt(src, lost)) + 1
  {
    hide EpochItems, Resets;
    assert (lost + [epoch])[..|lost|] == lost;
  }

  lemma {:induction false} LoseKeepsSteady(src: Source, ssid: string, script: seq<Reply>, s: Snapshot)
    requires Steady(src, ssid, script, s) && !s.atGap && s.Rest() == []
    ensures Steady(src, ssid, script, Lose(src, s))
  {
    hide Epochs, EndOf, Attempt, Resets, SleepsWithin, Played, EpochItems, Pushes, Latest, Disciplined;
    LoseEpoch(src, s.lost, s.epoch);
    SleepsSurviveLoss(src, s.lost, s.epoch, s.slept);
    assert s.epoch + s.Rest() == s.epoch;
  }

  lemma SeeMessage(src: Source, epoch: seq<Msg>, msg: Msg)
    ensures Latest(Pushes(src, epoch + [msg]))
         == if Matches(src, msg) then Some(ToCandle(msg, src.asset)) else Latest(Pushes(src, epoch))
    ensures Resets(src, epoch + [msg]) <==> Proves(src, msg) || Resets(src, epoch)
    ensures EpochItems(src, epoch + [msg])
         == EpochItems(src, epoch)
            + (match Latest(Pushes(src, epoch))
               case None => []
               case Some(p) => if Matches(src, msg) && p.openTime != msg.windowStart then [Bar(p)] else [])
  {
    hide EpochItems;
    EpochItemsStep(src, epoch, msg);
    var longer := epoch + [msg];
    assert longer[..|epoch|] == epoch;
    if Resets(src, epoch) {
      var i :| 0 <= i < |epoch| && Proves(src, epoch[i]);
      assert Proves(src, longer[i]);
    }
    if Proves(src, msg) {
      assert Proves(src, longer[|epoch|]);
    }
    if Resets(src, longer) {
      var i :| 0 <= i < |longer| && Proves(src, longer[i]);
      assert i < |epoch| ==> Proves(src, epoch[i]);
    }
  }

  /** The one-slot buffer keeps up with the declarative meaning of the stream. */
  lemma {:induction false} ConsumeKeepsBuffered(src: Source, s: Snapshot)
    requires Buffered(src, s) && !s.atGap && s.wires != [] && s.Rest() != []
    ensures Buffered(src, Consume(src, s))
  {
    hide Attempt, Resets, Played, EpochItems, Pushes, Latest;
    SeeMessage(src, s.epoch, s.Rest()[0]);
    var more := Consume(src, s).yielded[|s.yielded|..];
    assert Played(src, s.lost) + (EpochItems(src, s.epoch) + more)
        == Played(src, s.lost) + EpochItems(src, s.epoch) + more;
  }

  lemma ConsumeKeepsConnected(src: Source, ssid: string, script: seq<Reply>, s: Snapshot)
    requires Connected(src, ssid, script, s) && !s.atGap && s.Rest() != []
    ensures Connected(src, ssid, script, Consume(src, s))
  {
    hide Epochs, EndOf, SleepsWithin;
    var t := Consume(src, s);
    assert t.epoch + t.Rest() == s.epoch + s.Rest();
  }

  lemma NothingSeen(src: Source)
    ensures Played(src, []) == [] && EpochItems(src, []) == [] && Pushes(src, []) == [] && !Resets(src, [])
    ensures Attempt(src, []) == 0 && SleepsWithin(src, [], [])
  {
  }

  /** The transport a connection that carries is left with once it is subscribed. */
  function SubscribedWire(src: Source, ssid: string, reply: Reply): Wire
    requires Carries(reply)
  {
    Wire(Dial(reply).value, BothFrames(src, ssid), reply.accepts - 2, false)
  }

  lemma ReplaceKeepsConnected(src: Source, ssid: string, script: seq<Reply>, s: Snapshot, w: Wire, delay: real)
    requires Connected(src, ssid, script, s) && s.atGap && Carries(NextReply(s.ahead))
    requires w == SubscribedWire(src, ssid, NextReply(s.ahead))
    requires 0.0 <= delay <= Ceiling(Attempt(src, s.lost))
    ensures Connected(src, ssid, script, Replace(s, w, delay))
  {
    NextConnection(s.ahead);
    hide Epochs, EndOf, Attempt, SleepsWithin, Ceiling, Dial;
    SleepOnce(src, s.lost, s.slept, delay);
    var t := Replace(s, w, delay);
    assert t.epoch + t.Rest() == w.incoming;
    assert s.lost + [] + ([w.incoming] + Epochs(t.ahead)) == s.lost + [w.incoming] + Epochs(t.ahead);
  }

  lemma ReplaceKeepsBuffered(src: Source, s: Snapshot, w: Wire, delay: real)
    requires Buffered(src, s) && s.atGap && s.wires != []
    ensures Buffered(src, Replace(s, w, delay))
  {
    NothingSeen(src);
    hide Attempt, Resets, Played, EpochItems, Pushes;
  }

  lemma ReplaceKeepsSteady(src: Source, ssid: string, script: seq<Reply>, s: Snapshot, delay: real)
    requires Steady(src, ssid, script, s) && s.atGap && Carries(NextReply(s.ahead))
    requires 0.0 <= delay <= Ceiling(s.attempt)
    ensures s.wires != []
    ensures Steady(src, ssid, script, Replace(s, SubscribedWire(src, ssid, NextReply(s.ahead)), delay))
  {
    AtGapNow(src, ssid, script, s);
    hide Connected, Buffered, Replace, SubscribedWire;
    var w := SubscribedWire(src, ssid, NextReply(s.ahead));
    ReplaceKeepsConnected(src, ssid, script, s, w, delay);
    ReplaceKeepsBuffered(src, s, w, delay);
  }

  lemma FirstIsSteady(src: Source, ssid: string, script: seq<Reply>, s: Snapshot)
    requires script != [] && Carries(script[0])
    requires s == Snapshot(script[1..], [SubscribedWire(src, ssid, script[0])], [], [], false, [], [], None, 0)
    ensures Steady(src, ssid, script, s)
  {
    NothingSeen(src);
    NextConnection(script);
    hide Epochs, EndOf, Attempt, Resets, SleepsWithin, Played, EpochItems, Pushes, Dial;
    assert [] + s.Rest() == s.wires[0].incoming;
    assert [] + [s.Rest()] + Epochs(s.ahead) == [s.Rest()] + Epochs(s.ahead);
  }

  // ---------- before the first item, and after the last ----------

  /** Nothing used yet, or connected once and not subscribed. */
  ghost predicate FreshConnection(adapter: ExnovaMarketDataAdapter, script: seq<Reply>)
    reads adapter.Repr()
  {
    var net := adapter.net;
    && adapter.Valid() && adapter.slept == []
    && if adapter.connected then
         && script != [] && script[0].Link? && Dial(script[0]).Ok? && net.script == script[1..]
         && net.wires == [Wire(Dial(script[0]).value, [Authenticate(net.ssid)], script[0].accepts - 1, false)]
         && adapter.ws.transport == Some(0) && net.logins == 1
       else
         && net.wires == [] && adapter.ws.transport == None && net.logins == 0
         && net.script == script
  }

  /** The transports a stream leaves: those of its epochs closed, each sent both frames, and the one it
      failed on, if any, still open, with the frames it took. */
  ghost predicate LeftBehind(wires: seq<Wire>, end: Ending, epochs: nat, src: Source, ssid: string) {
    && |wires| == epochs + (if end.NoTransport? then 0 else 1)
    && forall i :: 0 <= i < |wires| ==>
                     && wires[i].closed == (i < epochs)
                     && wires[i].sent == if i < epochs then BothFrames(src, ssid) else LastSent(end, ssid)
  }

  /** What is left once the attempt after the epochs `lost` has failed to connect. */
  lemma FailedDialLeaves(src: Source, ssid: string, script: seq<Reply>, s: Snapshot, after: seq<Wire>,
                         ahead: seq<Reply>, transport: Option<nat>, r: Result<(), Error>)
    requires Steady(src, ssid, script, s) && s.atGap
    requires !Carries(NextReply(s.ahead))
    requires var k := |s.wires| - 1;
             Dialled(s.ahead, s.wires[k := s.wires[k].(closed := true)], None, ssid, ahead, after, transport, r)
    ensures LeftBehind(after, EndOf(script), |s.lost|, src, ssid)
    ensures r.Err? ==> r.error == EndError(EndOf(script))
    ensures r.Ok? <==> EndOf(script).NotSubscribed?
    ensures s.lost == Epochs(script) && s.yielded == Played(src, s.lost)
  {
    hide Epochs, EndOf, Attempt, Resets, SleepsWithin, Played, EpochItems, Pushes, Dial, Dialled, LastSent;
    var k := |s.wires| - 1;
    var closed := s.wires[k := s.wires[k].(closed := true)];
    DialEnds(s.ahead, closed, None, ssid, ahead, after, transport, r);
    assert s.lost + [] + [] == s.lost;
    assert forall i :: 0 <= i < |closed| ==> closed[i].closed && after[i] == closed[i];
  }

  /** With no first connection there is no stream. */
  lemma FirstDialFailed(script: seq<Reply>, src: Source, ssid: string, script': seq<Reply>, wires: seq<Wire>,
                        transport: Option<nat>, r: Result<(), Error>)
    requires Dialled(script, [], None, ssid, script', wires, transport, r) && r.Err?
    ensures Dial(NextReply(script)).Err? && Epochs(script) == []
    ensures r.error == EndError(EndOf(script)) && !EndOf(script).NotSubscribed?
    ensures LeftBehind(wires, EndOf(script), 0, src, ssid)
  {
    hide Dialled, Dial, Epochs, EndOf, LastSent;
    DialEnds(script, [], None, ssid, script', wires, transport, r);
  }

  lemma FirstDialWorked(script: seq<Reply>, ssid: string, script': seq<Reply>, wires: seq<Wire>,
                        transport: Option<nat>, r: Result<(), Error>)
    requires Dialled(script, [], None, ssid, script', wires, transport, r)
    ensures |script'| <= |script|
    ensures r.Ok? ==> script != [] && script[0].Link? && Dial(script[0]).Ok?
                      && script' == script[1..] && transport == Some(0)
                      && wires == [Wire(Dial(script[0]).value, [Authenticate(ssid)], script[0].accepts - 1, false)]
  {
    hide Handshake;
    assert r.Ok? ==> wires == [wires[0]];
  }

  predicate Below(a: (nat, nat, nat), b: (nat, nat, nat)) {
    a.0 < b.0 || (a.0 == b.0 && (a.1 < b.1 || (a.1 == b.1 && a.2 < b.2)))
  }

  // ---------- the generator ----------

  class CandleStream {
    const adapter: ExnovaMarketDataAdapter
    const src: Source
    ghost const script: seq<Reply>  // everything the network was going to deliver

    var started: bool
    var atGap: bool  // suspended at the yield of a gap marker
    var attempt: nat
    var pending: Option<Candle>

    ghost var lost: seq<seq<Msg>>  // the epochs that ended in a lost connection
    ghost var epoch: seq<Msg>      // what the current connection has delivered
    ghost var yielded: seq<Item>

    /** Calling the generator function runs none of its body yet. */
    constructor (adapter: ExnovaMarketDataAdapter, asset: string, timeframeS: int, ghost script: seq<Reply>)
      requires FreshConnection(adapter, script)
      ensures this.adapter == adapter && src == Source(asset, adapter.activeId, timeframeS)
      ensures this.script == script && !started && yielded == [] && Valid()
    {
      this.adapter, src, this.script := adapter, Source(asset, adapter.activeId, timeframeS), script;
      started, atGap, attempt, pending := false, false, 0, None;
      lost, epoch, yielded := [], [], [];
    }

    ghost function Repr(): set<object> {
      {this} + adapter.Repr()
    }

    ghost function Now(): Snapshot
      reads Repr()
    {
      Snapshot(adapter.net.script, adapter.net.wires, adapter.slept, lost, atGap, epoch, yielded, pending, attempt)
    }

    ghost predicate Live()
      reads Repr()
    {
      && started && src.asset == adapter.asset && src.activeId == adapter.activeId
      && adapter.Valid() && adapter.connected
      && Steady(src, adapter.net.ssid, script, Now())
      && SleepsAsDrawn(adapter.draw, src, lost, adapter.slept)
      && adapter.ws.transport == Some(|adapter.net.wires| - 1)
      && adapter.net.logins == |adapter.net.wires|
    }

    ghost predicate Valid()
      reads Repr()
    {
      && src.activeId == adapter.activeId
      && if started then Live()
         else lost == [] && epoch == [] && yielded == [] && !atGap && FreshConnection(adapter, script)
    }

    /** Where the stream stands once it has raised. Only a stream that could not subscribe is still
        connected. */
    ghost predicate Ended(error: Error)
      reads Repr()
    {
      && adapter.Valid()
      && if src.asset != adapter.asset then
           error == WrongAsset && yielded == [] && FreshConnection(adapter, script)
         else
           && error == EndError(EndOf(script)) && lost == Epochs(script)
           && yielded == Played(src, lost)
           && adapter.connected == EndOf(script).NotSubscribed?
           && (adapter.connected ==> adapter.ws.transport == Some(|lost|))
           && adapter.net.logins == |lost| + 1
           && LeftBehind(adapter.net.wires, EndOf(script), |lost|, src, adapter.net.ssid)
           && |adapter.slept| == |lost| && SleepsWithin(src, lost, adapter.slept)
           && SleepsAsDrawn(adapter.draw, src, lost, adapter.slept)
    }

    /** What is left to happen, in lexicographic order. */
    ghost function Fuel(): (nat, nat, nat)
      reads Repr()
    {
      (|adapter.net.script|, if !started then 2 else if atGap then 0 else 1, |Now().Rest()|)
    }

    /** `connect` on the first resumption; it has usually been called before. */
    method EnsureConnected() returns (r: Result<(), Error>)
      requires !started && FreshConnection(adapter, script) && src.asset == adapter.asset
      requires lost == [] && yielded == []
      modifies adapter.Repr()
      ensures r.Ok? ==> FreshConnection(adapter, script) && adapter.connected
      ensures |adapter.net.script| <= old(|adapter.net.script|)
      ensures r.Err? ==> Ended(r.error)
    {
      hide Epochs, EndOf, Dial, Played, SleepsWithin, Dialled;
      NothingSeen(src);
      ghost var before := adapter.connected;
      r := adapter.Connect();
      if !before {
        FirstDialWorked(script, adapter.net.ssid, adapter.net.script, adapter.net.wires, adapter.ws.transport, r);
        if r.Err? {
          FirstDialFailed(script, src, adapter.net.ssid, adapter.net.script, adapter.net.wires,
                          adapter.ws.transport, r);
        }
      }
    }

    /** From the first resumption to the loop. */
    method Begin() returns (r: Result<(), Error>)
      requires !started && !atGap && src.activeId == adapter.activeId && FreshConnection(adapter, script)
      requires lost == [] && epoch == [] && yielded == []
      modifies Repr()
      ensures r.Ok? ==> Live() && !atGap && yielded == old(yielded)
      ensures |adapter.net.script| <= old(|adapter.net.script|)
      ensures r.Err? ==> Ended(r.error) && yielded == old(yielded)
      ensures src.asset != adapter.asset ==> r.Err? && adapter.connected == old(adapter.connected)
    {
      if src.asset != adapter.asset {
        return Err(WrongAsset);
      }
      hide Steady, Ended, Dial, SubscribedWire, BothFrames, Dialled, LeftBehind, Epochs, EndOf, Played, SleepsWithin;
      r := EnsureConnected();
      if r.Err? {
        return;
      }
      r := adapter.SubscribeCandles(src.timeframeS);
      if r.Err? {
        UnsubscribedEnds();
        return;
      }
      started, attempt, pending := true, 0, None;
      BecomesLive();
    }

    /** A first connection that took the subscription starts the stream. */
    lemma BecomesLive()
      requires started && attempt == 0 && pending == None && !atGap
      requires lost == [] && epoch == [] && yielded == [] && adapter.slept == []
      requires src.asset == adapter.asset && src.activeId == adapter.activeId
      requires adapter.Valid() && adapter.connected && adapter.ws.transport == Some(0) && adapter.net.logins == 1
      requires script != [] && Carries(script[0]) && adapter.net.script == script[1..]
      requires adapter.net.wires
            == [Wire(Dial(script[0]).value,
                     [Authenticate(adapter.net.ssid)] + [Subscribe(src.activeId, src.timeframeS)],
                     script[0].accepts - 2, false)]
      ensures Live()
    {
      hide Steady, Carries, Dial, SubscribedWire, BothFrames;
      FirstWire(src, adapter.net.ssid, script[0], adapter.net.wires[0]);
      assert adapter.net.wires == [SubscribedWire(src, adapter.net.ssid, script[0])];
      FirstIsSteady(src, adapter.net.ssid, script, Now());
    }

    /** A first connection that takes no subscription is the end of the stream. */
    lemma UnsubscribedEnds()
      requires FreshConnection(adapter, script) && adapter.connected && src.asset == adapter.asset
      requires lost == [] && yielded == [] && script[0].accepts == 1
      ensures Ended(SendFailed)
    {
      NextConnection(script);
      NothingSeen(src);
      hide Epochs, EndOf, Dial, Played, SleepsWithin;
    }

    /** A stream that could not be resumed has ended: `r` is how the dial went, and only a dial that
        went well and took no subscription leaves it connected. */
    lemma CannotResume(s: Snapshot, delay: real, r: Result<(), Error>)
      requires Steady(src, adapter.net.ssid, script, s) && s.atGap && src.asset == adapter.asset && adapter.Valid()
      requires lost == s.lost && yielded == s.yielded && adapter.slept == s.slept + [delay]
      requires 0.0 <= delay <= Ceiling(s.attempt) && delay == Jitter(s.attempt, adapter.draw(|s.slept|))
      requires SleepsAsDrawn(adapter.draw, src, s.lost, s.slept)
      requires var k := |s.wires| - 1;
               s.wires != [] && Dialled(s.ahead, s.wires[k := s.wires[k].(closed := true)], None, adapter.net.ssid,
                                        adapter.net.script, adapter.net.wires, adapter.ws.transport, r)
      requires adapter.net.logins == |s.wires| + 1 && adapter.connected == r.Ok?
      requires r.Err? || !Carries(NextReply(s.ahead))
      ensures Ended(if r.Err? then r.error else SendFailed)
    {
      AtGapNow(src, adapter.net.ssid, script, s);
      FailedDialLeaves(src, adapter.net.ssid, script, s, adapter.net.wires, adapter.net.script,
                       adapter.ws.transport, r);
      hide Steady, LeftBehind, Ceiling, Jitter, SleepsWithin, SleepsAsDrawn, Attempt, Epochs, EndOf, Played, Dial;
      SleepOnce(src, s.lost, s.slept, delay);
      DrawOnce(adapter.draw, src, s.lost, s.slept, delay);
    }

    /** From the yield of a gap marker back to the loop. */
    method Resume() returns (r: Result<(), Error>)
      requires Live() && atGap
      modifies Repr()
      ensures r.Ok? ==> Live() && !atGap && yielded == old(yielded)
      ensures r.Ok? ==> |adapter.net.script| < old(|adapter.net.script|)
      ensures r.Err? ==> Ended(r.error) && yielded == old(yielded)
    {
      hide Steady, Ended, Ceiling, Jitter, SleepsAsDrawn, Dial, SubscribedWire, BothFrames,
        LeftBehind, Epochs, EndOf, Played, SleepsWithin;
      ghost var s, ssid := Now(), adapter.net.ssid;
      SteadyHasWire(src, ssid, script, s);
      r := adapter.Reconnect(attempt);
      ghost var delay := adapter.slept[|s.slept|];
      assert adapter.slept == s.slept + [delay];
      if r.Err? {
        CannotResume(s, delay, r);
        return;
      }
      ghost var dialled := r;
      DialSucceeded(s.ahead);
      r := adapter.SubscribeCandles(src.timeframeS);
      if r.Err? {
        CannotResume(s, delay, dialled);
        return;
      }
      atGap, epoch := false, [];
      FirstWire(src, ssid, NextReply(s.ahead), adapter.net.wires[|s.wires|]);
      assert Now() == Replace(s, SubscribedWire(src, ssid, NextReply(s.ahead)), delay);
      ReplaceKeepsSteady(src, ssid, script, s, delay);
      AtGapNow(src, ssid, script, s);
      DrawOnce(adapter.draw, src, s.lost, s.slept, delay);
    }

    /** What the loop does with one message. */
    method Handle(ghost s: Snapshot, msg: Msg) returns (item: Option<Item>)
      requires src.activeId == adapter.activeId && s.wires != [] && s.Rest() != [] && msg == s.Rest()[0]
      requires Now() == s.(wires := s.wires[|s.wires| - 1 := s.wires[|s.wires| - 1].(incoming := s.Rest()[1..])])
      modifies this
      ensures Now() == Consume(src, s) && started == old(started)
      ensures yielded == old(yielded) + (if item.Some? then [item.value] else [])
    {
      item := None;
      epoch := epoch + [msg];
      match msg {
        case CandlePush(activeId, _, _, _, _, _, _, _) =>
          if activeId == adapter.activeId {
            attempt := 0;
            var candle := ToCandle(msg, src.asset);
            if pending.Some? && candle.openTime != pending.value.openTime {
              item := Some(Bar(pending.value));
              yielded := yielded + [Bar(pending.value)];
            }
            pending := Some(candle);
          }
        case TimeSync =>
          attempt := 0;
        case _ =>
      }
      assert s.yielded + [] == s.yielded;
    }

    /** One turn of the loop: receive, and yield or go on. */
    method Turn() returns (item: Option<Item>)
      requires Live() && !atGap
      modifies Repr()
      ensures Live() && Below(Fuel(), old(Fuel()))
      ensures item.None? ==> !atGap && yielded == old(yielded)
      ensures item.Some? ==> yielded == old(yielded) + [item.value]
    {
      hide Steady, SleepsAsDrawn;
      ghost var s := Now();
      SteadyHasWire(src, adapter.net.ssid, script, s);
      var msg := adapter.ws.Receive();
      if msg.Err? {
        attempt, pending := attempt + 1, None;
        lost, epoch, atGap, yielded := lost + [epoch], [], true, yielded + [GapFor(src)];
        assert Now() == Lose(src, s);
        LoseKeepsSteady(src, adapter.net.ssid, script, s);
        DrawnSleepsSurvive(adapter.draw, src, s.lost, [s.epoch], s.slept);
        return Some(GapFor(src));
      }
      item := Handle(s, msg.value);
      ConsumeKeepsSteady(src, adapter.net.ssid, script, s);
    }

    /** Run to the next yield, or to the exception that ends the stream. */
    method Next() returns (r: Result<Item, Error>)
      requires Valid()
      modifies Repr()
      ensures r.Ok? ==> Valid() && started && yielded == old(yielded) + [r.value]
      ensures r.Ok? ==> Below(Fuel(), old(Fuel()))
      ensures r.Err? ==> Ended(r.error) && yielded == old(yielded)
      ensures src.asset != adapter.asset ==> r.Err? && adapter.connected == old(adapter.connected)
    {
      hide Steady, Ended, FreshConnection, SleepsAsDrawn;
      var begun: Result<(), Error> := Ok(());
      if !started {
        begun := Begin();
      } else if atGap {
        begun := Resume();
      }
      if begun.Err? {
        return Err(begun.error);
      }
      var item: Option<Item> := None;
      while item.None?
        invariant Live()
        invariant item.None? ==> !atGap && yielded == old(yielded)
                                 && (Fuel() == old(Fuel()) || Below(Fuel(), old(Fuel())))
        invariant item.Some? ==> yielded == old(yielded) + [item.value] && Below(Fuel(), old(Fuel()))
        decreases item.None?, Fuel().0, Fuel().1, Fuel().2
      {
        item := Turn();
      }
      return Ok(item.value);
    }
  }

  lemma DialSucceeded(script: seq<Reply>)
    ensures Dial(NextReply(script)).Ok? ==> NextReply(script).Link? && NextReply(script).accepts >= 1
  {
  }

  lemma FirstWire(src: Source, ssid: string, reply: Reply, w: Wire)
    requires Carries(reply)
    requires w == Wire(Dial(reply).value, [Authenticate(ssid)] + [Subscribe(src.activeId, src.timeframeS)],
                       reply.accepts - 2, false)
    ensures w == SubscribedWire(src, ssid, reply)
  {
  }

  lemma AtGapNow(src: Source, ssid: string, script: seq<Reply>, s: Snapshot)
    requires Steady(src, ssid, script, s) && s.atGap
    ensures |s.wires| == |s.lost| > 0 && |s.slept| + 1 == |s.lost| && SleepsWithin(src, s.lost, s.slept)
    ensures s.attempt == Attempt(src, s.lost)
  {
    hide Epochs, EndOf, Attempt, Resets, SleepsWithin, Played, EpochItems, Pushes, Disciplined;
  }

  lemma SteadyHasWire(src: Source, ssid: string, script: seq<Reply>, s: Snapshot)
    requires Steady(src, ssid, script, s)
    ensures s.wires != []
  {
  }

  lemma ConsumeKeepsSteady(src: Source, ssid: string, script: seq<Reply>, s: Snapshot)
    requires Steady(src, ssid, script, s) && !s.atGap && s.wires != [] && s.Rest() != []
    ensures Steady(src, ssid, script, Consume(src, s))
  {
    hide Connected, Buffered, Consume;
    ConsumeKeepsConnected(src, ssid, script, s);
    ConsumeKeepsBuffered(src, s);
  }
}
