/** The live market-data adapter: WebSocket client (src/botafuturo/adapters/exnova/ws_client.py) and
    candle stream (src/botafuturo/adapters/exnova/market_data.py).

    The outside world is a `Network`: its script says how each coming attempt to connect is met. A
    transport accepts so many frames before sending fails and delivers so many messages before it is
    lost; once the script is used up, no transport can be opened any more. */
module Exnova {
  import opened Models
  import opened ClosedBars
  import opened Backoff

  datatype Frame = Authenticate(ssid: string) | Subscribe(activeId: int, size: int)

  datatype Wire = Wire(incoming: seq<Msg>, sent: seq<Frame>, accepts: nat, closed: bool)

  /** How an attempt to connect is met: the login fails, the server cannot be reached or refuses the
      upgrade to a WebSocket, or a transport opens. */
  datatype Reply = LoginRefused | Unreachable | Refused | Link(accepts: nat, delivers: seq<Msg>)

  const MAX_AUTH_SKIP: nat := 20

  class Network {
    const ssid: string
    var script: seq<Reply>
    var wires: seq<Wire>  // the transports opened so far
    var logins: nat       // login requests made so far

    constructor (ssid: string, script: seq<Reply>)
      ensures this.ssid == ssid && this.script == script && wires == [] && logins == 0
    {
      this.ssid, this.script, wires, logins := ssid, script, [], 0;
    }
  }

  function NextReply(script: seq<Reply>): Reply {
    if script == [] then Unreachable else script[0]
  }

  function Later(script: seq<Reply>): seq<Reply> {
    if script == [] then [] else script[1..]
  }

  // ---------- the handshake ----------

  /** Skip messages until the `authenticated` confirmation; what is left is the epoch. */
  function Handshake(msgs: seq<Msg>, budget: nat): Result<seq<Msg>, Error> {
    if budget == 0 then Err(AuthenticationError)
    else if msgs == [] then Err(WsConnectionLost)
    else if msgs[0].Authenticated? then (if msgs[0].ok then Ok(msgs[1..]) else Err(AuthenticationError))
    else Handshake(msgs[1..], budget - 1)
  }

  ghost predicate FirstConfirmation(msgs: seq<Msg>, i: nat) {
    i < |msgs| && msgs[i].Authenticated? && forall j :: 0 <= j < i ==> !msgs[j].Authenticated?
  }

  /** The handshake succeeds exactly when the first confirmation is positive and among the first
      `budget` messages, and then consumes exactly the messages up to and including it. */
  lemma {:induction false} HandshakeMeaning(msgs: seq<Msg>, budget: nat, i: nat)
    requires FirstConfirmation(msgs, i)
    ensures Handshake(msgs, budget)
         == if i < budget && msgs[i].ok then Ok(msgs[i + 1..]) else Err(AuthenticationError)
  {
    if i > 0 && budget > 0 {
      assert forall j :: 0 <= j < i ==> msgs[1..][j] == msgs[j + 1];
      assert msgs[1..][i..] == msgs[i + 1..];
      HandshakeMeaning(msgs[1..], budget - 1, i - 1);
    }
  }

  /** Without a confirmation it fails: by a lost connection if the messages run out first. */
  lemma {:induction false} HandshakeWithoutConfirmation(msgs: seq<Msg>, budget: nat)
    requires forall m :: m in msgs ==> !m.Authenticated?
    ensures Handshake(msgs, budget) == Err(if |msgs| < budget then WsConnectionLost else AuthenticationError)
  {
    if budget > 0 && msgs != [] {
      assert msgs[0] in msgs;
      HandshakeWithoutConfirmation(msgs[1..], budget - 1);
    }
  }

  lemma {:induction false} HandshakeErrors(msgs: seq<Msg>, budget: nat)
    ensures Handshake(msgs, budget).Err? ==>
              Handshake(msgs, budget).error in {AuthenticationError, WsConnectionLost}
  {
    if budget > 0 && msgs != [] {
      HandshakeErrors(msgs[1..], budget - 1);
    }
  }

  // ---------- what a script amounts to ----------

  /** What `connect` makes of a reply: the messages left after the handshake, or the exception. */
  function Dial(reply: Reply): Result<seq<Msg>, Error> {
    match reply
    case LoginRefused => Err(LoginError)
    case Unreachable => Err(TransportUnavailable)
    case Refused => Err(UpgradeRejected)
    case Link(accepts, delivers) =>
      if accepts == 0 then Err(SendFailed) else Handshake(delivers, MAX_AUTH_SKIP)
  }

  /** The connection gets through its handshake and its subscription. */
  predicate Carries(reply: Reply) {
    reply.Link? && reply.accepts >= 2 && Dial(reply).Ok?
  }

  /** The first confirmation among these messages is positive and among the first `n`. */
  ghost predicate ConfirmedWithin(msgs: seq<Msg>, n: nat) {
    exists i: nat :: i < n && FirstConfirmation(msgs, i) && msgs[i].ok
  }

  lemma {:induction false} FindConfirmation(msgs: seq<Msg>) returns (i: nat)
    ensures i <= |msgs| && forall j :: 0 <= j < i ==> !msgs[j].Authenticated?
    ensures i < |msgs| ==> FirstConfirmation(msgs, i)
  {
    if msgs == [] || msgs[0].Authenticated? {
      i := 0;
    } else {
      var k := FindConfirmation(msgs[1..]);
      i := k + 1;
      assert forall j :: 0 < j < i ==> msgs[j] == msgs[1..][j - 1];
    }
  }

  /** A connection gets through exactly when it takes the authentication and one of its first 20 messages
      is the first confirmation and positive; it carries exactly when it takes the subscription, too. */
  lemma DialInPlainTerms(accepts: nat, delivers: seq<Msg>)
    ensures var d := Dial(Link(accepts, delivers));
            && (d.Ok? <==> accepts > 0 && ConfirmedWithin(delivers, 20))
            && (d == Err(SendFailed) <==> accepts == 0)
            && (d.Err? && accepts > 0 ==>
                  d.error == if |delivers| < 20 && forall m :: m in delivers ==> !m.Authenticated?
                             then WsConnectionLost else AuthenticationError)
    ensures Carries(Link(accepts, delivers)) <==> accepts >= 2 && ConfirmedWithin(delivers, 20)
  {
    var i := FindConfirmation(delivers);
    if i < |delivers| {
      HandshakeMeaning(delivers, MAX_AUTH_SKIP, i);
      assert delivers[i] in delivers;
      assert forall k: nat :: FirstConfirmation(delivers, k) ==> k == i;
    } else {
      assert forall k: nat :: !FirstConfirmation(delivers, k);
      HandshakeWithoutConfirmation(delivers, MAX_AUTH_SKIP);
    }
    hide Handshake;
  }

  /** The messages of every connection that carries, up to the first that does not. */
  function Epochs(script: seq<Reply>): seq<seq<Msg>> {
    if script == [] || !Carries(script[0]) then []
    else [Dial(script[0]).value] + Epochs(script[1..])
  }

  /** How the first connection that does not carry fails: without a transport, on an open transport
      that is not authenticated, or on an authenticated one. */
  datatype Ending = NoTransport(reason: Error) | NotAuthenticated(reason: Error) | NotSubscribed

  function EndOf(script: seq<Reply>): Ending {
    if script != [] && Carries(script[0]) then EndOf(script[1..])
    else
      match Dial(NextReply(script))
      case Ok(_) => NotSubscribed
      case Err(e) => if NextReply(script).Link? then NotAuthenticated(e) else NoTransport(e)
  }

  function EndError(end: Ending): Error {
    match end
    case NoTransport(e) => e
    case NotAuthenticated(e) => e
    case NotSubscribed => SendFailed
  }

  lemma NextConnection(script: seq<Reply>)
    ensures Epochs(script) == if Carries(NextReply(script))
                              then [Dial(NextReply(script)).value] + Epochs(Later(script)) else []
    ensures EndOf(script) == if Carries(NextReply(script)) then EndOf(Later(script))
                             else match Dial(NextReply(script))
                                  case Ok(_) => NotSubscribed
                                  case Err(e) => if NextReply(script).Link? then NotAuthenticated(e)
                                                 else NoTransport(e)
    ensures Dial(NextReply(script)).Ok? ==> NextReply(script).Link? && NextReply(script).accepts >= 1
  {
  }

  /** What the transport a script ends on was sent before it failed. */
  function LastSent(end: Ending, ssid: string): seq<Frame> {
    if end == NotAuthenticated(SendFailed) then [] else [Authenticate(ssid)]
  }

  /** A handshake does not fail for want of room for the authentication. */
  lemma NoRoomExactlyWhenSendFails(reply: Reply)
    requires reply.Link?
    ensures Dial(reply) == Err(SendFailed) <==> reply.accepts == 0
  {
    HandshakeErrors(reply.delivers, MAX_AUTH_SKIP);
  }

  const OPENING_FAILURES: set<Error> := {LoginError, TransportUnavailable, UpgradeRejected}
  const HANDSHAKE_FAILURES: set<Error> := {SendFailed, AuthenticationError, WsConnectionLost}

  lemma {:induction false} EndingReasons(script: seq<Reply>)
    ensures match EndOf(script)
            case NoTransport(e) => e in OPENING_FAILURES
            case NotAuthenticated(e) => e in HANDSHAKE_FAILURES
            case NotSubscribed => true
  {
    if script != [] && Carries(script[0]) {
      EndingReasons(script[1..]);
    } else if NextReply(script).Link? {
      HandshakeErrors(NextReply(script).delivers, MAX_AUTH_SKIP);
    }
  }

  // ---------- ws_client ----------

  /** What dialling does to the script, the transports and the one in use: nothing opens, or one
      more transport that was sent the authentication if it took it, and stays in use either way. */
  ghost predicate Dialled(script: seq<Reply>, wires: seq<Wire>, transport: Option<nat>, ssid: string,
                          script': seq<Reply>, wires': seq<Wire>, transport': Option<nat>, r: Result<(), Error>)
  {
    var reply := NextReply(script);
    && script' == Later(script)
    && if reply.Link? then
         && transport' == Some(|wires|)
         && |wires'| == |wires| + 1 && wires'[..|wires|] == wires && !wires'[|wires|].closed
         && match Dial(reply)
            case Err(e) =>
              r == Err(e) && wires'[|wires|].sent == (if reply.accepts == 0 then [] else [Authenticate(ssid)])
            case Ok(rest) =>
              r == Ok(()) && wires'[|wires|] == Wire(rest, [Authenticate(ssid)], reply.accepts - 1, false)
       else
         r == Err(Dial(reply).error) && wires' == wires && transport' == transport
  }

  /** A dial that does not end in a subscribed connection is the end of its script. */
  lemma DialEnds(script: seq<Reply>, wires: seq<Wire>, transport: Option<nat>, ssid: string,
                 script': seq<Reply>, wires': seq<Wire>, transport': Option<nat>, r: Result<(), Error>)
    requires Dialled(script, wires, transport, ssid, script', wires', transport', r)
    ensures r.Ok? <==> Dial(NextReply(script)).Ok?
    ensures !Carries(NextReply(script)) ==>
              var end := EndOf(script);
              && Epochs(script) == []
              && (r.Err? ==> r.error == EndError(end)) && (r.Ok? <==> end.NotSubscribed?)
              && wires <= wires' && |wires'| == |wires| + (if end.NoTransport? then 0 else 1)
              && (!end.NoTransport? ==>
                    !wires'[|wires|].closed && wires'[|wires|].sent == LastSent(end, ssid))
  {
    NextConnection(script);
    if NextReply(script).Link? {
      NoRoomExactlyWhenSendFails(NextReply(script));
    }
    hide Epochs, EndOf, Handshake;
  }

  class ExnovaWsClient {
    const net: Network
    var transport: Option<nat>

    constructor (net: Network)
      ensures this.net == net && transport == None
    {
      this.net, transport := net, None;
    }

    ghost predicate Valid()
      reads this, net
    {
      transport.Some? ==> transport.value < |net.wires|
    }

    /** Open a transport and authenticate; the transport is stored before anything can go wrong. */
    method Connect(ssid: string) returns (r: Result<(), Error>)
      requires Valid() && !NextReply(net.script).LoginRefused?
      modifies this, net
      ensures Valid() && net.logins == old(net.logins)
      ensures Dialled(old(net.script), old(net.wires), old(transport), ssid,
                      net.script, net.wires, transport, r)
    {
      if net.script == [] {
        return Err(TransportUnavailable);
      }
      var k, reply := |net.wires|, net.script[0];
      net.script := net.script[1..];
      if reply.Unreachable? {
        return Err(TransportUnavailable);
      }
      if reply.Refused? {
        return Err(UpgradeRejected);
      }
      net.wires := net.wires + [Wire(reply.delivers, [], reply.accepts, false)];
      transport := Some(k);
      var sent := Send(Authenticate(ssid));
      if sent.Err? {
        return sent;
      }
      for i := 0 to MAX_AUTH_SKIP
        invariant transport == Some(k) && |net.wires| == k + 1
        invariant net.wires[..k] == old(net.wires)
        invariant net.script == old(net.script)[1..] && net.logins == old(net.logins)
        invariant net.wires[k] == Wire(net.wires[k].incoming, [Authenticate(ssid)], reply.accepts - 1, false)
        invariant Handshake(reply.delivers, MAX_AUTH_SKIP) == Handshake(net.wires[k].incoming, MAX_AUTH_SKIP - i)
      {
        var response := Receive();
        if response.Err? {
          return Err(response.error);
        }
        if response.value.Authenticated? {
          return if response.value.ok then Ok(()) else Err(AuthenticationError);
        }
      }
      return Err(AuthenticationError);
    }

    /** Idempotent. */
    method Disconnect()
      requires Valid()
      modifies this, net
      ensures Valid() && transport == None
      ensures net.script == old(net.script) && net.logins == old(net.logins)
      ensures net.wires == match old(transport)
                           case None => old(net.wires)
                           case Some(k) => old(net.wires)[k := old(net.wires)[k].(closed := true)]
    {
      match transport
      case None =>
      case Some(k) =>
        net.wires := net.wires[k := net.wires[k].(closed := true)];
        transport := None;
    }

    /** Fails, with nothing sent, on a transport that accepts no more frames. */
    method Send(frame: Frame) returns (r: Result<(), Error>)
      requires Valid() && transport.Some?
      modifies net
      ensures net.script == old(net.script) && net.logins == old(net.logins)
      ensures var w := old(net.wires)[transport.value];
              if w.accepts == 0 then r == Err(SendFailed) && net.wires == old(net.wires)
              else r == Ok(())
                   && net.wires == old(net.wires)[transport.value :=
                                                  w.(sent := w.sent + [frame], accepts := w.accepts - 1)]
    {
      var w := net.wires[transport.value];
      if w.accepts == 0 {
        return Err(SendFailed);
      }
      net.wires := net.wires[transport.value := w.(sent := w.sent + [frame], accepts := w.accepts - 1)];
      return Ok(());
    }

    /** The next message; a transport with nothing left to deliver is lost. */
    method Receive() returns (r: Result<Msg, Error>)
      requires Valid() && transport.Some?
      modifies net
      ensures net.script == old(net.script) && net.logins == old(net.logins)
      ensures var w := old(net.wires)[transport.value];
              if w.incoming == [] then r == Err(WsConnectionLost) && net.wires == old(net.wires)
              else r == Ok(w.incoming[0])
                   && net.wires == old(net.wires)[transport.value := w.(incoming := w.incoming[1..])]
    {
      var w := net.wires[transport.value];
      if w.incoming == [] {
        return Err(WsConnectionLost);
      }
      net.wires := net.wires[transport.value := w.(incoming := w.incoming[1..])];
      return Ok(w.incoming[0]);
    }
  }

  // ---------- market_data ----------

  class ExnovaMarketDataAdapter {
    const net: Network
    const ws: ExnovaWsClient
    const asset: string
    const activeId: int
    const draw: nat -> real  // the random numbers, each scaled by `uniform`
    var connected: bool
    var slept: seq<real>     // every backoff sleep so far

    constructor (net: Network, asset: string, activeId: int, draw: nat -> real)
      requires forall n :: 0.0 <= draw(n) <= 1.0
      ensures this.net == net && this.asset == asset && this.activeId == activeId
      ensures fresh(ws) && Valid() && !connected && slept == [] && ws.transport == None
    {
      this.net, this.asset, this.activeId, this.draw := net, asset, activeId, draw;
      ws := new ExnovaWsClient(net);
      connected, slept := false, [];
    }

    ghost function Repr(): set<object> {
      {this, ws, net}
    }

    ghost predicate Valid()
      reads Repr()
    {
      && ws.net == net && ws.Valid()
      && (connected ==> ws.transport.Some?)
      && forall n :: 0.0 <= draw(n) <= 1.0
    }

    /** Log in, open a transport and authenticate. Does nothing when connected. */
    method Connect() returns (r: Result<(), Error>)
      requires Valid()
      modifies Repr()
      ensures Valid() && slept == old(slept)
      ensures old(connected) ==>
                r == Ok(()) && connected && net.wires == old(net.wires) && net.script == old(net.script)
                && net.logins == old(net.logins) && ws.transport == old(ws.transport)
      ensures !old(connected) ==>
                && net.logins == old(net.logins) + 1 && connected == r.Ok?
                && Dialled(old(net.script), old(net.wires), old(ws.transport), net.ssid,
                           net.script, net.wires, ws.transport, r)
    {
      if connected {
        return Ok(());
      }
      net.logins := net.logins + 1;
      if NextReply(net.script).LoginRefused? {
        net.script := net.script[1..];
        return Err(LoginError);
      }
      r := ws.Connect(net.ssid);
      connected := r.Ok?;
    }

    /** Does nothing unless connected, even if a failed handshake left a transport behind. */
    method Disconnect()
      requires Valid()
      modifies Repr()
      ensures Valid() && !connected && slept == old(slept) && net.logins == old(net.logins)
      ensures net.wires == if old(connected)
                           then old(net.wires)[old(ws.transport.value) :=
                                               old(net.wires[ws.transport.value]).(closed := true)]
                           else old(net.wires)
    {
      if !connected {
        return;
      }
      ws.Disconnect();
      connected := false;
    }

    /** Sleep, close the dead transport, and connect afresh. */
    method Reconnect(attempt: nat) returns (r: Result<(), Error>)
      requires Valid() && connected
      modifies Repr()
      ensures Valid() && |slept| == |old(slept)| + 1 && slept[..|old(slept)|] == old(slept)
      ensures 0.0 <= slept[|old(slept)|] == Jitter(attempt, draw(|old(slept)|)) <= Ceiling(attempt)
      ensures draw(|old(slept)|) == 1.0 ==> slept[|old(slept)|] == Ceiling(attempt)
      ensures connected == r.Ok? && net.logins == old(net.logins) + 1
      ensures var k := old(ws.transport.value);
              Dialled(old(net.script), old(net.wires)[k := old(net.wires)[k].(closed := true)], None, net.ssid,
                      net.script, net.wires, ws.transport, r)
    {
      DelayIsBounded(attempt, draw(|slept|));
      var delay := BackoffDelay(attempt, DEFAULT_BASE_S, DEFAULT_CAP_S, draw(|slept|));
      slept := slept + [delay.value];
      ws.Disconnect();
      connected := false;
      r := Connect();
    }

    method SubscribeCandles(timeframeS: int) returns (r: Result<(), Error>)
      requires Valid() && ws.transport.Some?
      modifies net
      ensures Valid() && net.script == old(net.script) && net.logins == old(net.logins)
      ensures var k := ws.transport.value;
              var w := old(net.wires)[k];
              if w.accepts == 0 then r == Err(SendFailed) && net.wires == old(net.wires)
              else r == Ok(())
                   && net.wires == old(net.wires)[k := w.(sent := w.sent + [Subscribe(activeId, timeframeS)],
                                                          accepts := w.accepts - 1)]
    {
      r := ws.Send(Subscribe(activeId, timeframeS));
    }
  }
}
