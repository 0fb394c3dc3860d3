/** The session-driving loop (src/botafuturo/cli/run.py) over the live adapter: one whole program run
    as a function of what the network delivers, and where its signals come from. */
module RunSessions {
  import opened Models
  import opened Session
  import opened SessionSchedule
  import opened ClosedBars
  import opened Backoff
  import opened Exnova
  import opened CandleStreaming

  // ---------- what has been yielded is a beginning of everything ----------

  lemma OneMoreEpoch(src: Source, epochs: seq<seq<Msg>>, epoch: seq<Msg>)
    ensures Played(src, epochs) <= Played(src, epochs + [epoch])
  {
    hide EpochItems;
    assert (epochs + [epoch])[..|epochs|] == epochs;
  }

  lemma {:induction false} PlayedGrows(src: Source, a: seq<seq<Msg>>, b: seq<seq<Msg>>)
    ensures Played(src, a) <= Played(src, a + b)
  {
    hide Played;
    if b == [] {
      assert a + b == a;
    } else {
      var n := |b| - 1;
      PlayedGrows(src, a, b[..n]);
      OneMoreEpoch(src, a + b[..n], b[n]);
      assert a + b == (a + b[..n]) + [b[n]];
    }
  }

  lemma OneMoreMessage(src: Source, epoch: seq<Msg>, msg: Msg)
    ensures EpochItems(src, epoch) <= EpochItems(src, epoch + [msg])
  {
    hide EpochItems, Pushes;
    EpochItemsStep(src, epoch, msg);
  }

  lemma {:induction false} EpochItemsGrow(src: Source, epoch: seq<Msg>, rest: seq<Msg>)
    ensures EpochItems(src, epoch) <= EpochItems(src, epoch + rest)
  {
    hide EpochItems;
    if rest == [] {
      assert epoch + rest == epoch;
    } else {
      var n := |rest| - 1;
      EpochItemsGrow(src, epoch, rest[..n]);
      assert epoch + rest == (epoch + rest[..n]) + [rest[n]];
      OneMoreMessage(src, epoch + rest[..n], rest[n]);
    }
  }

  /** At every suspension the items yielded are a prefix of what the whole script amounts to. */
  lemma {:induction false} YieldedIsPrefix(src: Source, ssid: string, script: seq<Reply>, s: Snapshot)
    requires Steady(src, ssid, script, s)
    ensures s.yielded <= Played(src, Epochs(script))
    ensures SleepsWithin(src, Epochs(script), s.slept)
  {
    hide Epochs, EndOf, EpochItems, Disciplined, Attempt, Resets, Pushes, SleepsWithin;
    var all := Epochs(script);
    if s.atGap {
      assert all == s.lost + Epochs(s.ahead);
      PlayedGrows(src, s.lost, Epochs(s.ahead));
      SleepsExtend(src, s.lost, Epochs(s.ahead), s.slept);
    } else {
      var whole := s.epoch + s.Rest();
      assert all == (s.lost + [whole]) + Epochs(s.ahead) == s.lost + ([whole] + Epochs(s.ahead));
      PlayedGrows(src, s.lost + [whole], Epochs(s.ahead));
      EpochItemsGrow(src, s.epoch, s.Rest());
      LoseEpoch(src, s.lost, whole);
      SleepsExtend(src, s.lost, [whole] + Epochs(s.ahead), s.slept);
    }
  }

  lemma LostIsPrefix(src: Source, ssid: string, script: seq<Reply>, s: Snapshot)
    requires Steady(src, ssid, script, s)
    ensures |s.lost| <= |Epochs(script)| && Epochs(script) == s.lost + Epochs(script)[|s.lost|..]
  {
    hide Epochs, EndOf, EpochItems, Disciplined, Attempt, Resets, Pushes, SleepsWithin, Played;
  }

  lemma {:induction false} SleepsExtend(src: Source, lost: seq<seq<Msg>>, more: seq<seq<Msg>>, slept: seq<real>)
    requires SleepsWithin(src, lost, slept)
    ensures SleepsWithin(src, lost + more, slept)
  {
    if more == [] {
      assert lost + more == lost;
    } else {
      hide SleepsWithin;
      var n := |more| - 1;
      SleepsExtend(src, lost, more[..n], slept);
      SleepsSurviveLoss(src, lost + more[..n], more[n], slept);
      assert lost + more == (lost + more[..n]) + [more[n]];
    }
  }

  // ---------- run_session ----------

  /** The items a run over `script` feeds the session. */
  function Emitted(src: Source, configuredAsset: string, script: seq<Reply>): seq<Item> {
    if src.asset == configuredAsset then Played(src, Epochs(script)) else []
  }

  /** The exception a run ends with: the session's own, or else the stream's. */
  function FinalError(p: Progress, src: Source, configuredAsset: string, script: seq<Reply>): Error {
    if p.error.Some? then p.error.value
    else if src.asset != configuredAsset && Dial(NextReply(script)).Ok? then WrongAsset
    else EndError(EndOf(script))
  }

  /** The branch of `connect` that leaks: the run goes on until a transport opens and is not
      authenticated. */
  predicate StaysOpen(p: Progress, src: Source, configuredAsset: string, script: seq<Reply>) {
    && p.error.None?
    && (src.asset == configuredAsset || Dial(NextReply(script)).Err?)
    && EndOf(script).NotAuthenticated?
  }

  /** The frames the last transport of a run was sent: both if the session stopped the run, only the
      authentication if the stream was asked for another instrument, and else those it took before
      the stream failed; with no transport to fail on, the last one carried an epoch. */
  function FinalFrames(p: Progress, src: Source, configuredAsset: string, script: seq<Reply>,
                       ssid: string): seq<Frame> {
    if p.error.Some? then BothFrames(src, ssid)
    else if src.asset != configuredAsset && Dial(NextReply(script)).Ok? then [Authenticate(ssid)]
    else if EndOf(script).NoTransport? then BothFrames(src, ssid)
    else LastSent(EndOf(script), ssid)
  }

  /** Every transport but the last was sent one authentication and one subscription. */
  ghost predicate Conversed(wires: seq<Wire>, src: Source, ssid: string, last: seq<Frame>) {
    forall i :: 0 <= i < |wires| ==>
                  wires[i].sent == if i == |wires| - 1 then last else BothFrames(src, ssid)
  }

  /** Every transport is closed, except the last one if `open`. */
  ghost predicate CleanedUp(wires: seq<Wire>, open: bool) {
    && (forall i :: 0 <= i < |wires| ==> wires[i].closed == !(open && i == |wires| - 1))
    && (open ==> wires != [])
  }

  ghost predicate FirstNotToCarry(script: seq<Reply>, k: nat) {
    k < |script| && !Carries(script[k]) && forall i :: 0 <= i < k ==> Carries(script[i])
  }

  /** Which scripts end on an unauthenticated transport: those whose first reply that does not carry a
      subscribed connection is a transport that refuses the frame or fails the handshake. */
  lemma {:induction false} EndsUnauthenticatedExactlyWhen(script: seq<Reply>)
    ensures EndOf(script).NotAuthenticated? <==>
            exists k: nat :: FirstNotToCarry(script, k) && script[k].Link? && Dial(script[k]).Err?
  {
    if script != [] && Carries(script[0]) {
      var rest := script[1..];
      EndsUnauthenticatedExactlyWhen(rest);
      forall k: nat ensures FirstNotToCarry(script, k) <==> k > 0 && FirstNotToCarry(rest, k - 1) {
        assert k > 0 ==> forall i :: 0 < i <= k && i < |script| ==> script[i] == rest[i - 1];
      }
      if EndOf(rest).NotAuthenticated? {
        var k: nat :| FirstNotToCarry(rest, k) && rest[k].Link? && Dial(rest[k]).Err?;
        assert FirstNotToCarry(script, k + 1);
      }
    } else if script != [] {
      assert FirstNotToCarry(script, 0);
      assert forall k: nat :: FirstNotToCarry(script, k) ==> k == 0;
    }
  }

  /** The exception that comes of a reply which does not carry a subscribed connection. */
  ghost function FailsWith(reply: Reply): Error {
    match reply
    case LoginRefused => LoginError
    case Unreachable => TransportUnavailable
    case Refused => UpgradeRejected
    case Link(accepts, delivers) =>
      if accepts == 0 || ConfirmedWithin(delivers, 20) then SendFailed
      else if |delivers| < 20 && forall m :: m in delivers ==> !m.Authenticated? then WsConnectionLost
      else AuthenticationError
  }

  /** The exit status of a run that only the connection ends: 1 if the last reply is a failed login, an
      unreachable server or a handshake that fails, and the exception itself otherwise. */
  ghost function ExitOn(reply: Reply): Result<int, Error> {
    match reply
    case LoginRefused => Ok(1)
    case Unreachable => Ok(1)
    case Refused => Err(UpgradeRejected)
    case Link(accepts, delivers) =>
      if accepts == 0 || ConfirmedWithin(delivers, 20) then Err(SendFailed) else Ok(1)
  }

  /** The exception a script ends in, reply by reply. */
  lemma {:induction false} EndInPlainTerms(script: seq<Reply>)
    ensures (forall i :: 0 <= i < |script| ==> Carries(script[i])) ==>
              EndError(EndOf(script)) == TransportUnavailable
    ensures forall k: nat :: FirstNotToCarry(script, k) ==> EndError(EndOf(script)) == FailsWith(script[k])
  {
    if script != [] && Carries(script[0]) {
      var rest := script[1..];
      EndInPlainTerms(rest);
      hide Carries, ConfirmedWithin, Dial, EndError;
      assert EndOf(script) == EndOf(rest);
      assert forall i :: 0 <= i < |rest| ==> rest[i] == script[i + 1];
      forall k: nat | FirstNotToCarry(script, k) ensures k > 0 && FirstNotToCarry(rest, k - 1) {
        assert Carries(script[0]);
      }
    } else if script != [] {
      assert FirstNotToCarry(script, 0);
      assert forall k: nat :: FirstNotToCarry(script, k) ==> k == 0;
      if script[0].Link? {
        DialInPlainTerms(script[0].accepts, script[0].delivers);
      }
      hide Handshake;
    }
  }

  /** The smallest leak: one transport that answers the authentication with a refusal. */
  lemma RefusedHandshakeLeaks(s: Settings, src: Source)
    requires s.Valid() && src.asset == s.asset
    ensures var script := [Link(2, [Authenticated(false)])];
            && Epochs(script) == [] && EndOf(script) == NotAuthenticated(AuthenticationError)
            && StaysOpen(Run(s, Emitted(src, s.asset, script)), src, s.asset, script)
  {
    var script := [Link(2, [Authenticated(false)])];
    assert Dial(script[0]) == Err(AuthenticationError);
    assert Emitted(src, s.asset, script) == [];
  }

  lemma {:induction false} SessionErrors(s: Settings, items: seq<Item>)
    requires s.Valid() && Run(s, items).error.Some?
    ensures Run(s, items).error.value in {WrongAsset, InsufficientBalance, UnsupportedExpiry}
  {
    if items != [] {
      hide CandleStep, Attempts;
      var n := |items| - 1;
      if Run(s, items[..n]).error.Some? {
        SessionErrors(s, items[..n]);
      } else if items[n].Bar? {
        RaisesExactlyWhen(s, Run(s, items[..n]).machine, items[n].candle);
      }
    }
  }

  /** The body of the `for` loop: a gap resets the strategy, a candle goes to the session. */
  method Deliver(session: TradingSession, item: Item, sofar: nat) returns (processed: nat, raised: Option<Error>)
    requires session.Valid()
    modifies session.Repr()
    ensures session.Valid()
    ensures Progress(session.State(), raised, processed)
         == Feed(session.settings, Progress(old(session.State()), None, sofar), item)
  {
    hide CandleStep;
    processed, raised := sofar, None;
    match item
    case Gap(_, _, _) =>
      session.strategy.Reset();
    case Bar(candle) =>
      raised := session.OnCandle(candle);
      if raised.None? {
        processed := processed + 1;
      }
  }

  /** The `for` loop: feed the session what the stream yields until one of the two raises. */
  method Drive(session: TradingSession, stream: CandleStream)
    returns (processed: nat, error: Error, ghost streamRaised: bool)
    requires session.Valid() && session.State() == Start(session.settings)
    requires stream.Valid() && stream.yielded == [] && session.Repr() !! stream.Repr()
    requires stream.src.asset != stream.adapter.asset ==> stream.adapter.connected
    modifies session.Repr(), stream.Repr()
    ensures session.Valid()
    ensures Run(session.settings, stream.yielded)
         == Progress(session.State(), if streamRaised then None else Some(error), processed)
    ensures if streamRaised then stream.Ended(error) else stream.Live()
    ensures stream.src.asset != stream.adapter.asset ==> stream.adapter.connected
  {
    hide Run, Feed, Steady, Start, FreshConnection, LeftBehind, SleepsWithin, Played, Epochs, EndOf;
    ghost var s := session.settings;
    RunOfNothing(s);
    processed, streamRaised := 0, false;
    var raised: Option<Error> := None;
    while raised.None?
      invariant session.Valid()
      invariant Run(s, stream.yielded) == Progress(session.State(), if streamRaised then None else raised, processed)
      invariant if streamRaised then raised.Some? && stream.Ended(raised.value)
                else stream.Valid() && (raised.Some? ==> stream.started)
      invariant stream.src.asset != stream.adapter.asset ==> stream.adapter.connected
      decreases raised.None?, stream.Fuel().0, stream.Fuel().1, stream.Fuel().2
    {
      ghost var before := stream.yielded;
      var item := stream.Next();
      match item
      case Err(e) =>
        raised, streamRaised := Some(e), true;
      case Ok(next) =>
        RunOneMore(s, before, next);
        processed, raised := Deliver(session, next, processed);
    }
    error := raised.value;
  }

  /** The `try` block of `run_session` and its `finally`. */
  method RunConnected(session: TradingSession, adapter: ExnovaMarketDataAdapter, asset: string, timeframeS: int,
                      ghost script: seq<Reply>)
    returns (processed: nat, error: Error)
    requires session.Valid() && session.State() == Start(session.settings)
    requires FreshConnection(adapter, script) && adapter.connected
    requires session.Repr() !! adapter.Repr()
    modifies session.Repr(), adapter.Repr()
    ensures var src := Source(asset, adapter.activeId, timeframeS);
            var p := Run(session.settings, Emitted(src, adapter.asset, script));
            && session.Valid() && session.State() == p.machine && processed == p.processed
            && error == FinalError(p, src, adapter.asset, script)
            && SleepsWithin(src, Epochs(script), adapter.slept)
            && SleepsAsDrawn(adapter.draw, src, Epochs(script), adapter.slept)
            && CleanedUp(adapter.net.wires, StaysOpen(p, src, adapter.asset, script))
            && Conversed(adapter.net.wires, src, adapter.net.ssid,
                         FinalFrames(p, src, adapter.asset, script, adapter.net.ssid))
    ensures adapter.net.logins == |adapter.net.wires| + (if error in OPENING_FAILURES then 1 else 0)
  {
    hide Run, Played, Epochs, EndOf, SleepsWithin, Steady, Start, Dial, CleanedUp, LeftBehind, Conversed, LastSent,
      BothFrames, FinalFrames, FinalError, StaysOpen;
    var stream := new CandleStream(adapter, asset, timeframeS, script);
    ghost var streamRaised;
    processed, error, streamRaised := Drive(session, stream);
    EndOfDrive(session.settings, stream, Run(session.settings, stream.yielded), error, streamRaised);
    adapter.Disconnect();
  }

  /** The transports once the adapter has disconnected. */
  ghost function Hung(adapter: ExnovaMarketDataAdapter): seq<Wire>
    requires adapter.Valid()
    reads adapter.Repr()
  {
    var wires, k := adapter.net.wires, adapter.ws.transport;
    if adapter.connected then wires[k.value := wires[k.value].(closed := true)] else wires
  }

  /** What the run comes to, whichever of the session and the stream raised. */
  lemma EndOfDrive(s: Settings, stream: CandleStream, p: Progress, error: Error, streamRaised: bool)
    requires s.Valid() && p == Run(s, stream.yielded)
    requires p.error == if streamRaised then None else Some(error)
    requires if streamRaised then stream.Ended(error) else stream.Live()
    requires stream.src.asset != stream.adapter.asset ==> stream.adapter.connected
    ensures stream.adapter.Valid()
    ensures var src, adapter := stream.src, stream.adapter;
            var script, configured, ssid := stream.script, adapter.asset, adapter.net.ssid;
            && p == Run(s, Emitted(src, configured, script)) && error == FinalError(p, src, configured, script)
            && SleepsWithin(src, Epochs(script), adapter.slept)
            && SleepsAsDrawn(adapter.draw, src, Epochs(script), adapter.slept)
            && CleanedUp(Hung(adapter), StaysOpen(p, src, configured, script))
            && Conversed(Hung(adapter), src, ssid, FinalFrames(p, src, configured, script, ssid))
            && adapter.net.logins == |adapter.net.wires| + (if error in OPENING_FAILURES then 1 else 0)
  {
    hide Run, Played, Epochs, EndOf, SleepsWithin, Steady, Start, Dial, CleanedUp, LeftBehind, Conversed, LastSent,
      BothFrames;
    var src, adapter := stream.src, stream.adapter;
    var script, wires, ssid := stream.script, adapter.net.wires, adapter.net.ssid;
    EndingReasons(script);
    NothingPlayed(src, Epochs(script));
    if !streamRaised {
      YieldedIsPrefix(src, ssid, script, stream.Now());
      LostIsPrefix(src, ssid, script, stream.Now());
      DrawnSleepsSurvive(adapter.draw, src, stream.lost, Epochs(script)[|stream.lost|..], adapter.slept);
      StoppedEarly(s, stream.yielded, Played(src, Epochs(script)));
      LiveStreamClosesClean(src, ssid, script, stream.Now());
    } else if src.asset == adapter.asset {
      EndedStreamClosesClean(wires, EndOf(script), |Epochs(script)|, src, ssid);
    } else {
      OneTransportClosesClean(wires, src, ssid);
    }
  }

  /** One whole run. The final state of the session, the number of candles processed and the exception
      that ends the run are functions of the settings and of what the network does; every sleep is
      within the bound of its attempt; and every transport opened is closed again, except that a
      transport on which `connect` failed stays open. */
  method RunSession(session: TradingSession, adapter: ExnovaMarketDataAdapter, asset: string, timeframeS: int)
    returns (processed: nat, error: Error)
    requires session.Valid() && session.State() == Start(session.settings)
    requires FreshConnection(adapter, adapter.net.script) && !adapter.connected
    requires session.Repr() !! adapter.Repr()
    modifies session.Repr(), adapter.Repr()
    ensures var src, script := Source(asset, adapter.activeId, timeframeS), old(adapter.net.script);
            var p := Run(session.settings, Emitted(src, adapter.asset, script));
            && session.Valid() && session.State() == p.machine && processed == p.processed
            && error == FinalError(p, src, adapter.asset, script)
            && SleepsWithin(src, Epochs(script), adapter.slept)
            && SleepsAsDrawn(adapter.draw, src, Epochs(script), adapter.slept)
            && CleanedUp(adapter.net.wires, StaysOpen(p, src, adapter.asset, script))
            && Conversed(adapter.net.wires, src, adapter.net.ssid,
                         FinalFrames(p, src, adapter.asset, script, adapter.net.ssid))
    ensures adapter.net.logins == |adapter.net.wires| + (if error in OPENING_FAILURES then 1 else 0)
  {
    hide Run, Played, Epochs, EndOf, SleepsWithin, Start, Dial, CleanedUp, Dialled, Conversed, LastSent, BothFrames,
      LeftBehind;
    ghost var script, src := adapter.net.script, Source(asset, adapter.activeId, timeframeS);
    EndingReasons(script);
    RunOfNothing(session.settings);
    NothingPlayed(src, Epochs(script));
    var connected := adapter.Connect();
    FirstDialWorked(script, adapter.net.ssid, adapter.net.script, adapter.net.wires, adapter.ws.transport, connected);
    if connected.Err? {
      FirstDialFailed(script, src, adapter.net.ssid, adapter.net.script, adapter.net.wires,
                      adapter.ws.transport, connected);
      EndedStreamClosesClean(adapter.net.wires, EndOf(script), 0, src, adapter.net.ssid);
      return 0, connected.error;
    }
    processed, error := RunConnected(session, adapter, asset, timeframeS, script);
  }

  /** A session that raised has reached the result of the whole run. */
  lemma {:induction false} StoppedEarly(s: Settings, items: seq<Item>, all: seq<Item>)
    requires s.Valid() && Run(s, items).error.Some? && items <= all
    ensures Run(s, all) == Run(s, items)
    ensures Run(s, items).error.value !in OPENING_FAILURES + HANDSHAKE_FAILURES
  {
    hide Run;
    assert all == items + all[|items|..];
    ErrorsAreFinal(s, items, all[|items|..]);
    SessionErrors(s, items);
  }

  lemma LiveStreamClosesClean(src: Source, ssid: string, script: seq<Reply>, s: Snapshot)
    requires Steady(src, ssid, script, s)
    ensures s.wires != []
    ensures var k := |s.wires| - 1;
            var wires := s.wires[k := s.wires[k].(closed := true)];
            CleanedUp(wires, false) && Conversed(wires, src, ssid, BothFrames(src, ssid))
  {
    hide Epochs, EndOf, SleepsWithin, Timeline, Output;
  }

  lemma EndedStreamClosesClean(wires: seq<Wire>, end: Ending, epochs: nat, src: Source, ssid: string)
    requires LeftBehind(wires, end, epochs, src, ssid)
    ensures |wires| == epochs + (if end.NoTransport? then 0 else 1)
    ensures var all := if end.NotSubscribed? then wires[epochs := wires[epochs].(closed := true)] else wires;
            && CleanedUp(all, end.NotAuthenticated?)
            && Conversed(all, src, ssid, if end.NoTransport? then BothFrames(src, ssid) else LastSent(end, ssid))
  {
  }

  lemma OneTransportClosesClean(wires: seq<Wire>, src: Source, ssid: string)
    requires |wires| == 1 && wires[0].sent == [Authenticate(ssid)]
    ensures CleanedUp(wires[0 := wires[0].(closed := true)], false)
    ensures Conversed(wires[0 := wires[0].(closed := true)], src, ssid, [Authenticate(ssid)])
  {
  }

  lemma RunOfNothing(s: Settings)
    requires s.Valid()
    ensures Run(s, []) == Progress(Start(s), None, 0)
  {
  }

  lemma NothingPlayed(src: Source, epochs: seq<seq<Msg>>)
    ensures Played(src, []) == [] && SleepsWithin(src, epochs, [])
    ensures forall draw: nat -> real :: SleepsAsDrawn(draw, src, epochs, [])
  {
  }

  lemma RunOneMore(s: Settings, items: seq<Item>, item: Item)
    requires s.Valid()
    ensures Run(s, items + [item]) == Feed(s, Run(s, items), item)
  {
    assert (items + [item])[..|items|] == items;
  }

  const CONNECTION_ERRORS: set<Error> := {LoginError, AuthenticationError, WsConnectionLost, TransportUnavailable}

  /** `_run_command`: wire everything and run. A connection error is reported as exit status 1; any
      other exception, such as that of a rejected upgrade or of a frame not taken, goes through. */
  method RunCommand(settings: Settings, net: Network, activeId: int, timeframeS: int, draw: nat -> real)
    returns (exit: Result<int, Error>, trades: seq<Trade>)
    requires net.wires == [] && net.logins == 0
    requires forall n :: 0.0 <= draw(n) <= 1.0
    modifies net
    ensures !settings.Valid() ==> exit == Err(BadPeriods) && trades == [] && unchanged(net)
    ensures settings.Valid() ==>
              var src, script := Source(settings.asset, activeId, timeframeS), old(net.script);
              var p := Run(settings, Played(src, Epochs(script)));
              var error := if p.error.Some? then p.error.value else EndError(EndOf(script));
              && trades == p.machine.log
              && exit == (if error in {LoginError, AuthenticationError, WsConnectionLost, TransportUnavailable}
                          then Ok(1) else Err(error))
              && (p.error.None? ==>
                    && (forall k: nat :: FirstNotToCarry(script, k) ==> exit == ExitOn(script[k]))
                    && ((forall i :: 0 <= i < |script| ==> Carries(script[i])) ==> exit == Ok(1)))
              && CleanedUp(net.wires, p.error.None? && EndOf(script).NotAuthenticated?)
              && Conversed(net.wires, src, net.ssid, FinalFrames(p, src, settings.asset, script, net.ssid))
              && forall i :: 0 <= i < |net.wires| - 1 ==>
                               net.wires[i].sent == [Authenticate(net.ssid), Subscribe(activeId, timeframeS)]
  {
    hide Run, Played, Epochs, EndOf, Carries, ConfirmedWithin, EndError, FirstNotToCarry;
    EndInPlainTerms(net.script);
    var adapter := new ExnovaMarketDataAdapter(net, settings.asset, activeId, draw);
    var session := TradingSession.Build(settings);
    if session.Err? {
      return Err(session.error), [];
    }
    var processed, error := RunSession(session.value, adapter, settings.asset, timeframeS);
    trades := session.value.tradeLog.trades;
    exit := if error in CONNECTION_ERRORS then Ok(1) else Err(error);
  }
}
