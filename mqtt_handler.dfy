/** The `MqttHandler` object: its fields are updated in place, and every
    method is proved to move the fields exactly as the transition function of
    module `MqttSpec` with the same name, keeping the invariant `Valid`. */
module MqttHandlers {
  import opened JsValues
  import opened Ipv4
  import opened MqttSpec

  class MqttHandler {
    const config: Config
    var status: Status
    var retries: nat
    var hasClient: bool
    var libConnected: bool
    var timers: nat
    var socket: Option<SocketId>
    var log: seq<Emission>
    var sent: seq<Request>
    var pending: multiset<Request>
    var overwritten: nat

    function State(): Handler
      reads this
    {
      Handler(status, retries, hasClient, libConnected, timers, socket, log, sent, pending, overwritten)
    }

    predicate Inv()
      reads this
    {
      Valid(State())
    }

    constructor (socket: Option<SocketId>, config: Config)
      ensures this.config == config && State() == Initial(socket) && Inv()
    {
      this.config := config;
      this.socket := socket;
      status := Disconnected;
      retries := 0;
      hasClient := false;
      libConnected := false;
      timers := 0;
      log := [];
      sent := [];
      pending := multiset{};
      overwritten := 0;
    }

    method EmitEvent(e: Event)
      modifies this
      ensures State() == Emit(old(State()), config, e)
    {
      if socket.Some? {
        log := log + [Emission(socket.value, config.brokerId, e)];
      }
    }

    method Disconnect()
      modifies this
      ensures State() == MqttSpec.Disconnect(old(State()), config)
    {
      if hasClient {
        status := Disconnected;
        retries := 0;
        hasClient := false;
        libConnected := false;
        EmitEvent(MqttStatus(Disconnected));
      }
    }

    method AttemptConnection()
      modifies this
      ensures State() == Attempt(old(State()), config)
    {
      if status == Connected || status == Connecting {
        return;
      }
      if !IsValidIPv4(config.brokerIp) {
        EmitEvent(Error(InvalidIpPrefix + config.brokerIp));
        status := Disconnected;
        return;
      }
      if retries >= MaxRetries {
        EmitEvent(Error(ConnectExhausted));
        Disconnect();
        return;
      }
      status := Connecting;
      retries := retries + 1;
      EmitEvent(MqttStatus(Connecting));
      if hasClient {
        overwritten := overwritten + 1;
      }
      hasClient := true;
      libConnected := false;
    }

    method Connect()
      modifies this
      requires Inv()
      ensures State() == MqttSpec.Connect(old(State()), config) && Inv()
    {
      status := Disconnected;
      retries := 0;
      AttemptConnection();
      StepValid(old(State()), config, ConnectCall);
    }

    method HandleReconnect()
      modifies this
      ensures State() == MqttSpec.HandleReconnect(old(State()), config)
    {
      if status == Disconnected && retries < MaxRetries {
        timers := timers + 1;
      } else if retries >= MaxRetries {
        Disconnect();
        EmitEvent(Error(ReconnectExhausted));
      }
    }

    method OnLibConnect(current: bool)
      modifies this
      requires Inv() && (current ==> hasClient)
      ensures State() == MqttSpec.OnLibConnect(old(State()), config, current) && Inv()
    {
      status := Connected;
      retries := 0;
      libConnected := current || libConnected;
      EmitEvent(MqttStatus(Connected));
    }

    method OnLibMessage(topic: string, text: string)
      modifies this
      requires Inv()
      ensures State() == MqttSpec.OnLibMessage(old(State()), config, topic, text) && Inv()
    {
      EmitEvent(MqttMessage(topic, text));
    }

    method OnLibError(message: string)
      modifies this
      requires Inv()
      ensures State() == MqttSpec.OnLibError(old(State()), config, message) && Inv()
    {
      EmitEvent(Error(MqttErrorPrefix + message));
      HandleReconnect();
      StepValid(old(State()), config, LibError(message));
    }

    method OnLibClose(current: bool)
      modifies this
      requires Inv() && (current ==> hasClient)
      ensures State() == MqttSpec.OnLibClose(old(State()), config, current) && Inv()
    {
      var wasActive := status != Disconnected;
      if current {
        libConnected := false;
      }
      if wasActive {
        status := Disconnected;
        EmitEvent(MqttStatus(Disconnected));
        HandleReconnect();
      }
      StepValid(old(State()), config, LibClose(current));
    }

    method OnTimer()
      modifies this
      requires Inv() && timers > 0
      ensures State() == MqttSpec.OnTimer(old(State()), config) && Inv()
    {
      ghost var h0 := State();
      timers := timers - 1;
      ghost var h1 := State();
      assert h1 == h0.(timers := h0.timers - 1);
      AttemptConnection();
      assert State() == Attempt(h1, config);
      StepValid(h0, config, TimerFires);
      assert Step(h0, config, TimerFires) == MqttSpec.OnTimer(h0, config);
    }

    method Subscribe(topic: string)
      modifies this
      requires Inv()
      ensures State() == MqttSpec.Subscribe(old(State()), config, topic) && Inv()
    {
      if hasClient && libConnected {
        var req := SubscribeRequest(topic, 0);
        sent := sent + [req];
        pending := pending + multiset{req};
      } else {
        EmitEvent(Error(NotConnected));
      }
    }

    method Publish(topic: string, message: string)
      modifies this
      requires Inv()
      ensures State() == MqttSpec.Publish(old(State()), config, topic, message) && Inv()
    {
      if !hasClient {
        EmitEvent(Error(NotInitialized));
        return;
      }
      if !libConnected {
        EmitEvent(Error(NotConnected));
        return;
      }
      var req := PublishRequest(topic, message, 0);
      sent := sent + [req];
      pending := pending + multiset{req};
    }

    method OnAck(req: Request, err: Option<string>)
      modifies this
      requires Inv() && req in pending
      ensures State() == MqttSpec.OnAck(old(State()), config, req, err) && Inv()
    {
      pending := pending - multiset{req};
      match (req, err)
      case (SubscribeRequest(topic, _), Some(m)) => EmitEvent(Error(SubscriptionErrorPrefix + m));
      case (SubscribeRequest(topic, _), None) => EmitEvent(Subscribed(topic));
      case (PublishRequest(topic, _, _), Some(m)) => EmitEvent(Error(PublishErrorPrefix + m));
      case (PublishRequest(topic, _, _), None) => EmitEvent(Published(topic));
    }

    method UpdateSocket(newSocket: SocketId)
      modifies this
      requires Inv()
      ensures State() == MqttSpec.UpdateSocket(old(State()), newSocket) && Inv()
    {
      socket := Some(newSocket);
    }

    /** `isConnected()`: reads the state and changes nothing. */
    method IsConnected() returns (connected: bool)
      ensures connected <==> MqttSpec.IsConnected(State())
      ensures connected ==> Inv() ==> retries == 0
    {
      connected := hasClient && libConnected && status == Connected;
    }

    /** `testConnection(port)`: a separate probe client; the method has no
        `modifies` clause, so it cannot write the handler's fields. */
    method TestConnection(port: int, first: ProbeEvent) returns (result: Option<bool>, probed: bool)
      ensures (result, probed) == MqttSpec.TestConnection(State(), config, first)
      ensures !IsValidIPv4(config.brokerIp) ==> result == Some(false) && !probed
    {
      if !IsValidIPv4(config.brokerIp) {
        return Some(false), false;
      }
      probed := true;
      match first
      case ProbeConnect => result := Some(true);
      case ProbeError => result := Some(false);
      case ProbeClose => result := if status != Connected then Some(false) else None;
    }
  }
}
