/** The per-broker connection state machine of `MqttHandler`
    (middlewares/mqtt-handler.js). The MQTT client library is reduced to two
    facts, whether the handler holds a client and whether that client reports
    itself connected; the socket to an append-only log of emitted events; and
    pending reconnect timers to a counter. Library callbacks, the timer and the
    caller's methods are the inputs of the machine.

    This module is the specification: a `Handler` value and one transition
    function per method or callback, with the properties the source promises
    proved as lemmas. The class that updates these fields in place is in
    module `MqttHandlers`. */
module MqttSpec {
  import opened JsValues
  import opened Strings
  import opened Ipv4

  type SocketId = string

  datatype Status = Disconnected | Connecting | Connected

  /** The payloads the handler emits on its socket. */
  datatype Event =
    | MqttStatus(status: Status)                      // "mqtt_status"
    | MqttMessage(topic: string, message: string)     // "mqtt_message"
    | Error(message: string)                          // "error"
    | Subscribed(topic: string)                       // "subscribed"
    | Published(topic: string)                        // "published"

  /** One emit: the socket it went to, and the broker id every payload carries. */
  datatype Emission = Emission(socket: SocketId, brokerId: string, event: Event)

  /** What the handler asks of its client; the handler always asks for QoS 0. */
  datatype Request =
    | SubscribeRequest(topic: string, qos: int)
    | PublishRequest(topic: string, message: string, qos: int)

  /** The broker record fields the handler reads (models/broker-model.js:5-12):
      its id, its address and its port; a port of 0 stands for a missing one. */
  datatype Config = Config(brokerId: string, brokerIp: string, portNumber: int)

  /** The handler's state: `connectionStatus`, `retryAttempts`, whether `client`
      is set and reports `connected`, the reconnect timers not yet fired, the
      socket (`None` when it is null), everything emitted and sent so far, the
      requests whose acknowledgement has not arrived, and how many clients were
      replaced by a new attempt without being ended. */
  datatype Handler = Handler(
    status: Status,
    retries: nat,
    hasClient: bool,
    libConnected: bool,
    timers: nat,
    socket: Option<SocketId>,
    log: seq<Emission>,
    sent: seq<Request>,
    pending: multiset<Request>,
    overwritten: nat)

  const MaxRetries: nat := 5

  const InvalidIpPrefix := "Invalid IP address: "
  const ConnectExhausted := "Failed to connect to broker after 5 attempts"
  const ReconnectExhausted := "Failed to reconnect to broker after 5 attempts"
  const MqttErrorPrefix := "MQTT error: "
  const NotConnected := "MQTT client not connected"
  const NotInitialized := "MQTT client not initialized"
  const SubscriptionErrorPrefix := "Subscription error: "
  const PublishErrorPrefix := "Publish error: "

  /** `portNumber || 1883`. */
  function EffectivePort(portNumber: int): int {
    if portNumber != 0 then portNumber else 1883
  }

  /** The URL the handler connects to: `mqtt://<brokerIp>:` and then the
      port, which reads back as the configured port, or 1883 when none is
      configured. */
  function BrokerUrl(c: Config): (url: string)
    ensures StartsWith(url, "mqtt://" + c.brokerIp + ":")
    ensures var rest := url[|"mqtt://" + c.brokerIp + ":"|..];
      ParseIntText(rest) == Some(if c.portNumber != 0 then c.portNumber else 1883)
    ensures var rest := url[|"mqtt://" + c.brokerIp + ":"|..];
      c.portNumber >= 0 ==> AllDigits(rest) && DecimalValue(rest) == (if c.portNumber != 0 then c.portNumber else 1883)
  {
    var prefix := "mqtt://" + c.brokerIp + ":";
    var port := EffectivePort(c.portNumber);
    var url := prefix + IntToString(port);
    assert url[..|prefix|] == prefix;
    assert url[|prefix|..] == IntToString(port);
    ParseIntOfNum(port);
    url
  }

  /** The state a new handler starts in. */
  function Initial(socket: Option<SocketId>): Handler {
    Handler(Disconnected, 0, false, false, 0, socket, [], [], multiset{}, 0)
  }

  /** The states the handler can reach. */
  predicate Valid(h: Handler) {
    && h.retries <= MaxRetries
    && (!h.hasClient ==> !h.libConnected)
    && (h.retries > 0 ==> h.hasClient)
    && (h.status == Disconnected ==> h.retries < MaxRetries)
    && (h.status == Connected ==> h.retries == 0)
  }

  /** What one `emit` adds to the log: `if (this.socket) this.socket.emit(...)`,
      so one emission to the attached socket, and nothing without a socket. */
  function Emitted(h: Handler, c: Config, e: Event): seq<Emission> {
    if h.socket.Some? then [Emission(h.socket.value, c.brokerId, e)] else []
  }

  /** Emitting changes the log and nothing else. */
  function Emit(h: Handler, c: Config, e: Event): (r: Handler)
    ensures r.(log := h.log) == h
    ensures h.socket.Some? ==> r.log == h.log + [Emission(h.socket.value, c.brokerId, e)]
    ensures h.socket.None? ==> r.log == h.log
  {
    h.(log := h.log + Emitted(h, c, e))
  }

  /** `disconnect()`: without a client it does nothing; otherwise it ends the
      client, drops it, resets status and counter and reports the new status.
      Pending timers are not cancelled. */
  function Disconnect(h: Handler, c: Config): (r: Handler)
    ensures !h.hasClient ==> r == h
    ensures h.hasClient ==> r.status == Disconnected && r.retries == 0 && !r.hasClient && !r.libConnected
    ensures h.hasClient ==> r.log == h.log + Emitted(h, c, MqttStatus(Disconnected))
    ensures r.timers == h.timers && r.socket == h.socket && r.sent == h.sent && r.pending == h.pending
  {
    if !h.hasClient then h
    else Emit(h.(status := Disconnected, retries := 0, hasClient := false, libConnected := false), c, MqttStatus(Disconnected))
  }

  /** `attemptConnection()`. */
  function Attempt(h: Handler, c: Config): Handler {
    if h.status == Connected || h.status == Connecting then h
    else if !IsValidIPv4(c.brokerIp) then
      Emit(h, c, Error(InvalidIpPrefix + c.brokerIp)).(status := Disconnected)
    else if h.retries >= MaxRetries then
      Disconnect(Emit(h, c, Error(ConnectExhausted)), c)
    else
      var h1 := Emit(h.(status := Connecting, retries := h.retries + 1), c, MqttStatus(Connecting));
      h1.(hasClient := true, libConnected := false,
          overwritten := if h.hasClient then h.overwritten + 1 else h.overwritten)
  }

  /** `connect()`: forces status and counter back to their initial values, even
      while connected, then attempts. */
  function Connect(h: Handler, c: Config): Handler {
    Attempt(h.(status := Disconnected, retries := 0), c)
  }

  /** `handleReconnect()`: schedules one timer, or gives up and disconnects. */
  function HandleReconnect(h: Handler, c: Config): Handler {
    if h.status == Disconnected && h.retries < MaxRetries then h.(timers := h.timers + 1)
    else if h.retries >= MaxRetries then Emit(Disconnect(h, c), c, Error(ReconnectExhausted))
    else h
  }

  /** The library's `connect` callback; `current` says whether the client that
      fired it is the one the handler holds now (older clients stay live). */
  function OnLibConnect(h: Handler, c: Config, current: bool): (r: Handler)
    ensures r.status == Connected && r.retries == 0
    ensures r.log == h.log + Emitted(h, c, MqttStatus(Connected))
    ensures r.hasClient == h.hasClient && r.timers == h.timers
  {
    Emit(h.(status := Connected, retries := 0, libConnected := current || h.libConnected), c, MqttStatus(Connected))
  }

  /** The library's `message` callback: the payload text is forwarded whether
      or not it parses as JSON. */
  function OnLibMessage(h: Handler, c: Config, topic: string, text: string): (r: Handler)
    ensures r.(log := h.log) == h
    ensures r.log == h.log + Emitted(h, c, MqttMessage(topic, text))
  {
    Emit(h, c, MqttMessage(topic, text))
  }

  /** The library's `error` callback: report, then `handleReconnect()`. */
  function OnLibError(h: Handler, c: Config, message: string): Handler {
    HandleReconnect(Emit(h, c, Error(MqttErrorPrefix + message)), c)
  }

  /** The library's `close` callback. A client that closes stops reporting
      connected; the handler reacts only if its status is not disconnected. */
  function OnLibClose(h: Handler, c: Config, current: bool): Handler {
    var h0 := if current then h.(libConnected := false) else h;
    if h.status != Disconnected then
      HandleReconnect(Emit(h0.(status := Disconnected), c, MqttStatus(Disconnected)), c)
    else h0
  }

  /** A reconnect timer fires and calls `attemptConnection()`. */
  function OnTimer(h: Handler, c: Config): Handler
    requires h.timers > 0
  {
    Attempt(h.(timers := h.timers - 1), c)
  }

  /** `subscribe(topic)`. */
  function Subscribe(h: Handler, c: Config, topic: string): Handler {
    if h.hasClient && h.libConnected then
      var req := SubscribeRequest(topic, 0);
      h.(sent := h.sent + [req], pending := h.pending + multiset{req})
    else Emit(h, c, Error(NotConnected))
  }

  /** `publish(topic, message)`. */
  function Publish(h: Handler, c: Config, topic: string, message: string): Handler {
    if !h.hasClient then Emit(h, c, Error(NotInitialized))
    else if !h.libConnected then Emit(h, c, Error(NotConnected))
    else
      var req := PublishRequest(topic, message, 0);
      h.(sent := h.sent + [req], pending := h.pending + multiset{req})
  }

  /** The acknowledgement callback of a subscribe or publish request, with the
      library's error message if it failed. */
  function OnAck(h: Handler, c: Config, req: Request, err: Option<string>): Handler
    requires req in h.pending
  {
    var h0 := h.(pending := h.pending - multiset{req});
    match (req, err)
    case (SubscribeRequest(topic, _), Some(m)) => Emit(h0, c, Error(SubscriptionErrorPrefix + m))
    case (SubscribeRequest(topic, _), None) => Emit(h0, c, Subscribed(topic))
    case (PublishRequest(topic, _, _), Some(m)) => Emit(h0, c, Error(PublishErrorPrefix + m))
    case (PublishRequest(topic, _, _), None) => Emit(h0, c, Published(topic))
  }

  /** `updateSocket(newSocket)`. */
  function UpdateSocket(h: Handler, s: SocketId): (r: Handler)
    ensures r.socket == Some(s) && r.(socket := h.socket) == h
  {
    h.(socket := Some(s))
  }

  /** `isConnected()`. */
  predicate IsConnected(h: Handler) {
    h.hasClient && h.libConnected && h.status == Connected
  }

  /** The first event the probe client of `testConnection` reports. */
  datatype ProbeEvent = ProbeConnect | ProbeError | ProbeClose

  /** `testConnection(port)`: the value the promise resolves to once the probe's
      first event arrives (`None`: still unresolved), and whether a probe
      client was opened at all. */
  function TestConnection(h: Handler, c: Config, first: ProbeEvent): (result: (Option<bool>, bool))
    ensures !IsValidIPv4(c.brokerIp) ==> result == (Some(false), false)
    ensures IsValidIPv4(c.brokerIp) ==> result.1
    ensures result.0 == Some(true) <==> IsValidIPv4(c.brokerIp) && first == ProbeConnect
    ensures result.0 == None <==> IsValidIPv4(c.brokerIp) && first == ProbeClose && h.status == Connected
  {
    if !IsValidIPv4(c.brokerIp) then (Some(false), false)
    else match first
      case ProbeConnect => (Some(true), true)
      case ProbeError => (Some(false), true)
      case ProbeClose => (if h.status != Connected then Some(false) else None, true)
  }

  // ---------------------------------------------------------------------------
  // Arbitrary orders of inputs.

  datatype Input =
    | ConnectCall
    | DisconnectCall
    | SubscribeCall(topic: string)
    | PublishCall(topic: string, message: string)
    | UpdateSocketCall(socket: SocketId)
    | LibConnect(current: bool)
    | LibMessage(topic: string, text: string)
    | LibError(message: string)
    | LibClose(current: bool)
    | TimerFires
    | Ack(req: Request, err: Option<string>)

  /** A callback from the current client needs a client; a timer must be
      pending to fire; an acknowledgement answers a request still pending. */
  predicate Enabled(h: Handler, i: Input) {
    match i
    case LibConnect(current) => current ==> h.hasClient
    case LibClose(current) => current ==> h.hasClient
    case TimerFires => h.timers > 0
    case Ack(req, _) => req in h.pending
    case _ => true
  }

  function Step(h: Handler, c: Config, i: Input): Handler
    requires Enabled(h, i)
  {
    match i
    case ConnectCall => Connect(h, c)
    case DisconnectCall => Disconnect(h, c)
    case SubscribeCall(topic) => Subscribe(h, c, topic)
    case PublishCall(topic, message) => Publish(h, c, topic, message)
    case UpdateSocketCall(s) => UpdateSocket(h, s)
    case LibConnect(current) => OnLibConnect(h, c, current)
    case LibMessage(topic, text) => OnLibMessage(h, c, topic, text)
    case LibError(message) => OnLibError(h, c, message)
    case LibClose(current) => OnLibClose(h, c, current)
    case TimerFires => OnTimer(h, c)
    case Ack(req, err) => OnAck(h, c, req, err)
  }

  /** Feeds the inputs in order; an input that cannot occur in the state it
      meets is skipped. */
  function Run(h: Handler, c: Config, inputs: seq<Input>): Handler
    decreases |inputs|
  {
    if |inputs| == 0 then h
    else
      var h1 := if Enabled(h, inputs[0]) then Step(h, c, inputs[0]) else h;
      Run(h1, c, inputs[1..])
  }

  // ---------------------------------------------------------------------------
  // Properties of the transitions.

  lemma InitialValid(socket: Option<SocketId>)
    ensures Valid(Initial(socket)) && !IsConnected(Initial(socket))
  {
  }

  lemma ExhaustedDiffers(ip: string)
    ensures InvalidIpPrefix + ip != ConnectExhausted
  {
    assert ConnectExhausted[0] == 'F';
    assert (InvalidIpPrefix + ip)[0] == InvalidIpPrefix[0] == 'I';
  }

  /** Within reachable states `attemptConnection` has three outcomes: nothing
      while connected or connecting; one error and no client with an invalid
      address; otherwise one more attempt with a new client. Its
      `retryAttempts >= maxRetries` branch is never taken, because a
      disconnected handler always has fewer than five attempts behind it. */
  lemma AttemptCases(h: Handler, c: Config)
    requires Valid(h)
    ensures h.status != Disconnected ==> Attempt(h, c) == h
    ensures h.status == Disconnected && !IsValidIPv4(c.brokerIp) ==>
      Attempt(h, c) == h.(log := h.log + Emitted(h, c, Error(InvalidIpPrefix + c.brokerIp)))
    ensures h.status == Disconnected && IsValidIPv4(c.brokerIp) ==>
      var r := Attempt(h, c);
      && r.status == Connecting && r.retries == h.retries + 1 <= MaxRetries
      && r.hasClient && !r.libConnected && r.timers == h.timers
      && r.log == h.log + Emitted(h, c, MqttStatus(Connecting))
      && r.overwritten == (if h.hasClient then h.overwritten + 1 else h.overwritten)
    ensures forall e :: e in Attempt(h, c).log[|h.log|..] ==> e.event != Error(ConnectExhausted)
  {
    var r := Attempt(h, c);
    if h.status == Disconnected {
      var e := if IsValidIPv4(c.brokerIp) then MqttStatus(Connecting) else Error(InvalidIpPrefix + c.brokerIp);
      assert r.log == h.log + Emitted(h, c, e);
      assert r.log[|h.log|..] == Emitted(h, c, e);
      ExhaustedDiffers(c.brokerIp);
    }
  }

  /** `handleReconnect` schedules a timer exactly when the handler is
      disconnected with attempts left; with the attempts used up it
      disconnects and reports the failure instead; otherwise it does nothing. */
  lemma ReconnectCases(h: Handler, c: Config)
    ensures HandleReconnect(h, c).timers == h.timers + 1 <==> h.status == Disconnected && h.retries < MaxRetries
    ensures h.status == Disconnected && h.retries < MaxRetries ==> HandleReconnect(h, c) == h.(timers := h.timers + 1)
    ensures h.retries >= MaxRetries ==>
      var d := Disconnect(h, c);
      HandleReconnect(h, c) == d.(log := d.log + Emitted(h, c, Error(ReconnectExhausted)))
    ensures h.status != Disconnected && h.retries < MaxRetries ==> HandleReconnect(h, c) == h
  {
  }

  /** A second `close` emits nothing and changes nothing. */
  lemma CloseTwice(h: Handler, c: Config, current: bool)
    requires current ==> h.hasClient
    ensures OnLibClose(OnLibClose(h, c, current), c, current) == OnLibClose(h, c, current)
  {
  }

  /** `close` on a disconnected handler emits nothing and schedules nothing. */
  lemma CloseWhenDisconnected(h: Handler, c: Config, current: bool)
    requires h.status == Disconnected
    ensures OnLibClose(h, c, current).log == h.log
    ensures OnLibClose(h, c, current).timers == h.timers
    ensures OnLibClose(h, c, current).retries == h.retries
  {
  }

  /** The `error` callback itself never changes the status: only giving up
      after five attempts does, through `disconnect`. */
  lemma ErrorKeepsStatus(h: Handler, c: Config, message: string)
    requires h.retries < MaxRetries
    ensures OnLibError(h, c, message).status == h.status
    ensures OnLibError(h, c, message).retries == h.retries
    ensures OnLibError(h, c, message).hasClient == h.hasClient
  {
  }

  /** A repeated `disconnect` is a no-op. */
  lemma DisconnectIdempotent(h: Handler, c: Config)
    ensures Disconnect(Disconnect(h, c), c) == Disconnect(h, c)
  {
  }

  /** `subscribe` sends exactly when a client exists and reports connected, and
      then asks for QoS 0; otherwise it reports one error and sends nothing. */
  lemma SubscribeSendsIff(h: Handler, c: Config, topic: string)
    ensures |Subscribe(h, c, topic).sent| > |h.sent| <==> h.hasClient && h.libConnected
    ensures h.hasClient && h.libConnected ==>
      Subscribe(h, c, topic).sent == h.sent + [SubscribeRequest(topic, 0)] && Subscribe(h, c, topic).log == h.log
    ensures !(h.hasClient && h.libConnected) ==>
      Subscribe(h, c, topic) == h.(log := h.log + Emitted(h, c, Error(NotConnected)))
  {
  }

  /** `publish` sends exactly when a client exists and reports connected, and
      then asks for QoS 0; a missing client and a disconnected one are reported
      with different errors. */
  lemma PublishSendsIff(h: Handler, c: Config, topic: string, message: string)
    ensures |Publish(h, c, topic, message).sent| > |h.sent| <==> h.hasClient && h.libConnected
    ensures h.hasClient && h.libConnected ==>
      Publish(h, c, topic, message).sent == h.sent + [PublishRequest(topic, message, 0)]
    ensures !h.hasClient ==>
      Publish(h, c, topic, message) == h.(log := h.log + Emitted(h, c, Error(NotInitialized)))
    ensures h.hasClient && !h.libConnected ==>
      Publish(h, c, topic, message) == h.(log := h.log + Emitted(h, c, Error(NotConnected)))
  {
  }

  /** A connected handler can send, and has no failed attempts counted. */
  lemma IsConnectedMeansUsable(h: Handler, c: Config, topic: string)
    requires Valid(h) && IsConnected(h)
    ensures h.retries == 0
    ensures Subscribe(h, c, topic).sent == h.sent + [SubscribeRequest(topic, 0)]
  {
  }

  /** `connect()` while connected starts over: the status drops to connecting,
      the counter restarts at one, and the old client is replaced without
      being ended. */
  lemma ConnectWhileConnected(h: Handler, c: Config)
    requires Valid(h) && IsConnected(h) && IsValidIPv4(c.brokerIp)
    ensures Connect(h, c).status == Connecting && Connect(h, c).retries == 1
    ensures Connect(h, c).overwritten == h.overwritten + 1
    ensures !Connect(h, c).libConnected
  {
  }

  /** `disconnect()` does not cancel a pending timer, so the handler reconnects
      by itself when the timer fires. */
  lemma TimerAfterDisconnect(h: Handler, c: Config)
    requires Valid(h) && h.hasClient && h.timers > 0 && IsValidIPv4(c.brokerIp)
    ensures Disconnect(h, c).timers == h.timers
    ensures OnTimer(Disconnect(h, c), c).status == Connecting
    ensures OnTimer(Disconnect(h, c), c).hasClient
  {
  }

  /** A failed attempt followed by its reconnect timer makes the next attempt,
      one count higher. */
  lemma FailedCycle(h: Handler, c: Config)
    requires Valid(h) && h.status == Connecting && h.retries < MaxRetries && IsValidIPv4(c.brokerIp)
    ensures OnLibClose(h, c, true).timers == h.timers + 1
    ensures OnTimer(OnLibClose(h, c, true), c).status == Connecting
    ensures OnTimer(OnLibClose(h, c, true), c).retries == h.retries + 1
  {
  }

  /** When the fifth attempt fails the handler gives up: it ends the client,
      resets the counter, schedules nothing and reports the failure last. */
  lemma FifthFailureGivesUp(h: Handler, c: Config)
    requires Valid(h) && h.status == Connecting && h.retries == MaxRetries && h.socket.Some?
    ensures
      var r := OnLibClose(h, c, true);
      && r.status == Disconnected && r.retries == 0 && !r.hasClient && r.timers == h.timers
      && |r.log| == |h.log| + 3
      && r.log[|r.log| - 1] == Emission(h.socket.value, c.brokerId, Error(ReconnectExhausted))
  {
  }

  /** Every transition keeps the handler in a reachable state. */
  lemma StepValid(h: Handler, c: Config, i: Input)
    requires Valid(h) && Enabled(h, i)
    ensures Valid(Step(h, c, i))
  {
    match i
    case TimerFires =>
      AttemptCases(h.(timers := h.timers - 1), c);
    case ConnectCall =>
      AttemptCases(h.(status := Disconnected, retries := 0), c);
    case _ =>
  }

  /** `b` is `a` with events emitted and requests sent after `a`'s. */
  predicate Extends(a: Handler, b: Handler) {
    && |a.log| <= |b.log| && b.log[..|a.log|] == a.log
    && |a.sent| <= |b.sent| && b.sent[..|a.sent|] == a.sent
  }

  lemma ExtendsTrans(a: Handler, b: Handler, d: Handler)
    requires Extends(a, b) && Extends(b, d)
    ensures Extends(a, d)
  {
    assert d.log[..|a.log|] == d.log[..|b.log|][..|a.log|];
    assert d.sent[..|a.sent|] == d.sent[..|b.sent|][..|a.sent|];
  }

  lemma EmitExtends(h: Handler, c: Config, e: Event)
    ensures Extends(h, Emit(h, c, e))
  {
  }

  lemma DisconnectExtends(h: Handler, c: Config)
    ensures Extends(h, Disconnect(h, c))
  {
  }

  lemma AttemptExtends(h: Handler, c: Config)
    ensures Extends(h, Attempt(h, c))
  {
    if h.status == Disconnected && IsValidIPv4(c.brokerIp) && h.retries >= MaxRetries {
      EmitExtends(h, c, Error(ConnectExhausted));
      DisconnectExtends(Emit(h, c, Error(ConnectExhausted)), c);
      ExtendsTrans(h, Emit(h, c, Error(ConnectExhausted)), Attempt(h, c));
    }
  }

  lemma ReconnectExtends(h: Handler, c: Config)
    ensures Extends(h, HandleReconnect(h, c))
  {
    if !(h.status == Disconnected && h.retries < MaxRetries) && h.retries >= MaxRetries {
      DisconnectExtends(h, c);
      EmitExtends(Disconnect(h, c), c, Error(ReconnectExhausted));
      ExtendsTrans(h, Disconnect(h, c), HandleReconnect(h, c));
    }
  }

  lemma CloseExtends(h: Handler, c: Config, current: bool)
    ensures Extends(h, OnLibClose(h, c, current))
  {
    if h.status != Disconnected {
      var h0 := if current then h.(libConnected := false) else h;
      var h1 := Emit(h0.(status := Disconnected), c, MqttStatus(Disconnected));
      ReconnectExtends(h1, c);
      ExtendsTrans(h, h1, OnLibClose(h, c, current));
    }
  }

  lemma ErrorExtends(h: Handler, c: Config, message: string)
    ensures Extends(h, OnLibError(h, c, message))
  {
    var h1 := Emit(h, c, Error(MqttErrorPrefix + message));
    ReconnectExtends(h1, c);
    ExtendsTrans(h, h1, OnLibError(h, c, message));
  }

  lemma AckExtends(h: Handler, c: Config, req: Request, err: Option<string>)
    requires req in h.pending
    ensures Extends(h, OnAck(h, c, req, err))
  {
  }

  /** Emitted events and sent requests are only ever appended to. */
  lemma StepExtends(h: Handler, c: Config, i: Input)
    requires Enabled(h, i)
    ensures Extends(h, Step(h, c, i))
  {
    match i
    case ConnectCall => AttemptExtends(h.(status := Disconnected, retries := 0), c);
    case TimerFires => AttemptExtends(h.(timers := h.timers - 1), c);
    case LibError(message) => ErrorExtends(h, c, message);
    case LibClose(current) => CloseExtends(h, c, current);
    case DisconnectCall => DisconnectExtends(h, c);
    case Ack(req, err) => AckExtends(h, c, req, err);
    case _ =>
  }

  /** The invariant holds after any sequence of inputs, so the counter stays
      within 0..5 and a disconnected handler always has attempts left. */
  lemma {:induction false} RunValid(h: Handler, c: Config, inputs: seq<Input>)
    requires Valid(h)
    ensures Valid(Run(h, c, inputs))
    decreases |inputs|
  {
    if |inputs| > 0 {
      var h1 := if Enabled(h, inputs[0]) then Step(h, c, inputs[0]) else h;
      if Enabled(h, inputs[0]) {
        StepValid(h, c, inputs[0]);
      }
      RunValid(h1, c, inputs[1..]);
    }
  }

  /** Over any sequence of inputs the log and the sent requests only grow. */
  lemma {:induction false} RunExtends(h: Handler, c: Config, inputs: seq<Input>)
    ensures Extends(h, Run(h, c, inputs))
    decreases |inputs|
  {
    if |inputs| > 0 {
      var h1 := if Enabled(h, inputs[0]) then Step(h, c, inputs[0]) else h;
      if Enabled(h, inputs[0]) {
        StepExtends(h, c, inputs[0]);
      }
      RunExtends(h1, c, inputs[1..]);
      ExtendsTrans(h, h1, Run(h, c, inputs));
    }
  }

  /** A handler that starts fresh never takes the connect-exhaustion branch,
      whatever the inputs. */
  lemma NoConnectExhaustion(socket: Option<SocketId>, c: Config, inputs: seq<Input>)
    ensures
      var h := Run(Initial(socket), c, inputs);
      Valid(h) && (h.status == Disconnected ==> h.retries < MaxRetries)
  {
    InitialValid(socket);
    RunValid(Initial(socket), c, inputs);
  }
}
