/** `POST /wifi/user/pub/publish` (routers/location.js): one publish of
    `{ topic, payload, qosLevel }` through the first registered client,
    answered once the client acknowledges it. */
module Location {
  import opened JsValues
  import opened Http
  import opened Clients

  /** The response (`None` when the request is never answered) and the
      publication handed to the client, if any. */
  datatype LocationResult = LocationResult(response: Option<Response>, publication: Option<Publication>)

  const MissingFields := Response(400, ErrorBody("Topic and payload are required"))
  const NoClient := Response(503, ErrorBody("No MQTT client available"))
  const NotConnected := Response(503, ErrorBody("MQTT client is not connected"))
  const Published := Response(200, MessageBody("Configuration published successfully"))
  const Internal := Response(500, ThrownBody("Internal server error: "))

  /** `parseInt(qosLevel, 10)` and, for a QoS outside 0..2, the warning's
      template (which writes `qosLevel` and `topic`) both convert without
      throwing. */
  predicate ConvertsBeforePublish(topic: JsValue, qosLevel: JsValue) {
    Stringable(qosLevel) && (QosInRange(qosLevel) || Stringable(topic))
  }

  /** The route, given the registries and the publish callback's error (`None`
      when the publish succeeded). A throw inside the callback, from one of
      its log templates, leaves the request unanswered. */
  function LocationRoute(body: JsValue, handlers: Registry<Client>, brokers: Registry<BrokerEntry>,
                         ackError: Option<string>): (r: LocationResult)
    ensures r.publication.Some? ==> Readable(body) && r.publication.value.qos == QosOf(Get(body, "qosLevel"))
    ensures r.publication.None? ==> r.response.Some?
  {
    if !Readable(body) then LocationResult(Some(Internal), None)
    else
      var topic := Get(body, "topic");
      var payload := Get(body, "payload");
      if !Truthy(topic) || !Truthy(payload) then LocationResult(Some(MissingFields), None)
      else
        var client := FirstClient(handlers, brokers);
        if client.None? then LocationResult(Some(NoClient), None)
        else if !client.value.connected then LocationResult(Some(NotConnected), None)
        else if !ConvertsBeforePublish(topic, Get(body, "qosLevel")) then LocationResult(Some(Internal), None)
        else
          var publication := Some(Publication(topic, payload, QosOf(Get(body, "qosLevel"))));
          match ackError
          case Some(m) =>
            var answer := if Stringable(topic) then Some(Response(500, ErrorBody("Failed to publish: " + m))) else None;
            LocationResult(answer, publication)
          case None =>
            var answer := if Stringable(topic) && Stringable(payload) then Some(Published) else None;
            LocationResult(answer, publication)
  }

  /** A missing `topic` or `payload` is answered 400 before any client is
      looked at. */
  lemma InputCheckedFirst(body: JsValue, handlers: Registry<Client>, brokers: Registry<BrokerEntry>, ackError: Option<string>)
    requires Readable(body) && (!Truthy(Get(body, "topic")) || !Truthy(Get(body, "payload")))
    ensures LocationRoute(body, handlers, brokers, ackError) == LocationResult(Some(MissingFields), None)
  {
  }

  /** Without a client, and with a client that is not connected, the answers
      are two different 503s, and nothing is published. */
  lemma ClientChecks(body: JsValue, handlers: Registry<Client>, brokers: Registry<BrokerEntry>, ackError: Option<string>)
    requires Readable(body) && Truthy(Get(body, "topic")) && Truthy(Get(body, "payload"))
    ensures FirstClient(handlers, brokers).None? ==> LocationRoute(body, handlers, brokers, ackError) == LocationResult(Some(NoClient), None)
    ensures FirstClient(handlers, brokers).Some? && !FirstClient(handlers, brokers).value.connected ==>
      LocationRoute(body, handlers, brokers, ackError) == LocationResult(Some(NotConnected), None)
  {
  }

  /** The answer is 200 exactly when the input is complete, the first client
      is connected, `qosLevel` converts, the publish callback reports no
      error and its log template converts `topic` and `payload`; a
      publication is handed over exactly when all but the last two hold. */
  lemma SuccessIff(body: JsValue, handlers: Registry<Client>, brokers: Registry<BrokerEntry>, ackError: Option<string>)
    ensures
      var ok := Readable(body) && Truthy(Get(body, "topic")) && Truthy(Get(body, "payload"))
        && FirstClient(handlers, brokers).Some? && FirstClient(handlers, brokers).value.connected
        && ConvertsBeforePublish(Get(body, "topic"), Get(body, "qosLevel"));
      var r := LocationRoute(body, handlers, brokers, ackError);
      && (r.response == Some(Published) <==> ok && ackError.None? && Stringable(Get(body, "topic")) && Stringable(Get(body, "payload")))
      && (r.response.Some? && r.response.value.status == 200 <==> r.response == Some(Published))
      && (r.publication.Some? <==> ok)
  {
  }

  /** A failed publish is answered 500 with the library's message, unless the
      callback's log template throws on `topic`, which leaves the request
      unanswered. */
  lemma PublishFailure(body: JsValue, handlers: Registry<Client>, brokers: Registry<BrokerEntry>, m: string)
    requires Readable(body) && Truthy(Get(body, "topic")) && Truthy(Get(body, "payload"))
    requires FirstClient(handlers, brokers).Some? && FirstClient(handlers, brokers).value.connected
    ensures
      var r := LocationRoute(body, handlers, brokers, Some(m));
      && (!ConvertsBeforePublish(Get(body, "topic"), Get(body, "qosLevel")) ==> r == LocationResult(Some(Internal), None))
      && (ConvertsBeforePublish(Get(body, "topic"), Get(body, "qosLevel")) && Stringable(Get(body, "topic")) ==>
            r.response == Some(Response(500, ErrorBody("Failed to publish: " + m))))
      && (ConvertsBeforePublish(Get(body, "topic"), Get(body, "qosLevel")) && !Stringable(Get(body, "topic")) ==>
            r.response.None? && r.publication.Some?)
  {
  }

  /** A `qosLevel` with its own `toString` makes `parseInt` throw: the catch
      answers 500 and nothing is published. */
  lemma UnconvertibleQosIsInternalError(handlers: Registry<Client>, brokers: Registry<BrokerEntry>, ackError: Option<string>, n: int)
    requires FirstClient(handlers, brokers).Some? && FirstClient(handlers, brokers).value.connected
    ensures
      var body := Obj(map["topic" := Str("t"), "payload" := Str("p"), "qosLevel" := Obj(map["toString" := Num(n)])]);
      LocationRoute(body, handlers, brokers, ackError) == LocationResult(Some(Internal), None)
  {
    var body := Obj(map["topic" := Str("t"), "payload" := Str("p"), "qosLevel" := Obj(map["toString" := Num(n)])]);
    assert Get(body, "topic") == Str("t") && Get(body, "payload") == Str("p");
    assert Get(body, "qosLevel") == Obj(map["toString" := Num(n)]);
  }
}
