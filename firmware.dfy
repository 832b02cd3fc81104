/** routers/firmware.js: the older firmware router. Its upload filter and
    upload answer are those of `FirmwareFiles`; its version list names
    `localhost`; its `POST /publish` opens a new connection for every
    request and checks only the presence of three fields and the IP. */
module Firmware {
  import opened Strings
  import opened JsValues
  import opened Http
  import opened Ipv4
  import opened Clients
  import opened FirmwareFiles
  import FirmwareRouter

  const Host := "localhost"

  /** `GET /get-all-versions`. */
  function Versions(dir: Listing): Response {
    VersionsRoute(Host, dir)
  }

  /** The listed URLs name `localhost`, one per file, in listing order. */
  lemma VersionsNameLocalhost(names: seq<string>, i: nat)
    requires i < |names|
    ensures |Versions(Names(names)).body.result| == |names|
    ensures Versions(Names(names)).body.result[i] == "http://localhost:5000/api/updates/" + names[i]
  {
  }

  /** The answer (`None` when the request is never answered), the URL of
      the connection opened, and what was published. */
  datatype PublishResult = PublishResult(response: Option<Response>, brokerUrl: Option<string>, published: Option<Publication>)

  const MissingFields := Response(400, OutcomeBody(false, "Broker IP, topic, and message are required"))
  const BadIp := Response(400, OutcomeBody(false, "Invalid broker IP format"))
  const PublishFailed := Response(500, OutcomeBody(false, "Failed to publish message"))

  /** `POST /publish`: `connection` is how the new connection to
      `mqtt://<ip>` (default port) ends, `ackError` the error the publish
      callback reports. A `brokerIp` the IP test cannot convert throws
      outside the `try`, and a `topic` or `message` the success callback's
      templates cannot convert throws inside that callback: either way the
      request is never answered. */
  function Publish(body: JsValue, connection: Connection, ackError: Option<string>): (r: PublishResult)
    ensures r.response.Some? && r.response.value.status == 400 ==> r.brokerUrl.None? && r.published.None?
    ensures r.published.Some? ==> r.published.value.qos == 0 && r.brokerUrl.Some? && connection.Connects?
  {
    if !Readable(body) then PublishResult(None, None, None)
    else
      var brokerIp := Get(body, "brokerIp");
      var topic := Get(body, "topic");
      var message := Get(body, "message");
      if !Truthy(brokerIp) || !Truthy(topic) || !Truthy(message) then PublishResult(Some(MissingFields), None, None)
      else if !Stringable(brokerIp) then PublishResult(None, None, None)
      else if !IsValidIPv4(ToStr(brokerIp)) then PublishResult(Some(BadIp), None, None)
      else
        var url := "mqtt://" + ToStr(brokerIp);
        match connection
        case NoAnswer => PublishResult(None, Some(url), None)
        case ConnectFails(m) =>
          PublishResult(Some(Response(500, OutcomeBody(false, "MQTT connection error: " + m))), Some(url), None)
        case Connects =>
          var publication := Some(Publication(topic, message, 0));
          match ackError
          case Some(_) => PublishResult(Some(PublishFailed), Some(url), publication)
          case None =>
            var answer := if Stringable(message) && Stringable(topic)
              then Some(Response(200, OutcomeBody(true, PublishedMessage(message)))) else None;
            PublishResult(answer, Some(url), publication)
  }

  /** The required fields are checked before the IP, and both before any
      connection is opened; a `brokerIp` the IP test cannot convert leaves
      the request unanswered. */
  lemma ChecksInOrder(body: JsValue, connection: Connection, ackError: Option<string>)
    requires Readable(body)
    ensures !Truthy(Get(body, "brokerIp")) || !Truthy(Get(body, "topic")) || !Truthy(Get(body, "message")) ==>
      Publish(body, connection, ackError) == PublishResult(Some(MissingFields), None, None)
    ensures
      var present := Truthy(Get(body, "brokerIp")) && Truthy(Get(body, "topic")) && Truthy(Get(body, "message"));
      present && !Stringable(Get(body, "brokerIp")) ==>
        Publish(body, connection, ackError) == PublishResult(None, None, None)
    ensures
      var present := Truthy(Get(body, "brokerIp")) && Truthy(Get(body, "topic")) && Truthy(Get(body, "message"));
      present && Stringable(Get(body, "brokerIp")) && !IsValidIPv4(ToStr(Get(body, "brokerIp"))) ==>
        Publish(body, connection, ackError) == PublishResult(Some(BadIp), None, None)
  {
  }

  /** A host name is refused as a broker address: the IP test admits dotted
      quads only. */
  lemma RefusesHostName(topic: string, message: string, connection: Connection, ackError: Option<string>)
    requires topic != "" && message != ""
    ensures
      var body := Obj(map["brokerIp" := Str("localhost"), "topic" := Str(topic), "message" := Str(message)]);
      Publish(body, connection, ackError).response == Some(BadIp)
  {
    var body := Obj(map["brokerIp" := Str("localhost"), "topic" := Str(topic), "message" := Str(message)]);
    assert Get(body, "brokerIp") == Str("localhost");
    assert Truthy(Get(body, "topic")) && Truthy(Get(body, "message"));
    RejectsHostNames();
    assert !IsValidIPv4(ToStr(Get(body, "brokerIp")));
  }

  /** The answer is 200 exactly when the three fields are present, the IP is
      a dotted quad, the connection comes up, the publish succeeds and the
      success templates convert `topic` and `message`; the message itself is
      never checked. */
  lemma SuccessIff(body: JsValue, connection: Connection, ackError: Option<string>)
    ensures var r := Publish(body, connection, ackError);
      var ok :=
        && Readable(body)
        && Truthy(Get(body, "brokerIp")) && Truthy(Get(body, "topic")) && Truthy(Get(body, "message"))
        && Stringable(Get(body, "brokerIp")) && IsValidIPv4(ToStr(Get(body, "brokerIp")))
        && connection.Connects? && ackError.None?
        && Stringable(Get(body, "topic")) && Stringable(Get(body, "message"));
      (r.response.Some? && r.response.value.status == 200) <==> ok
  {
  }

  /** A message that is not a firmware URL is published by this router and
      refused with 400 by routers/firmware-router.js, all else being equal. */
  lemma MessageNotValidated(ip: string, topic: string, user: string, password: string,
                            brokers: Registry<BrokerEntry>, newId: string)
    requires IsValidIPv4(ip) && topic != "" && user != "" && password != ""
    ensures
      var body := Obj(map["brokerIp" := Str(ip), "topic" := Str(topic), "message" := Str("hello"),
                          "mqttUsername" := Str(user), "mqttPassword" := Str(password)]);
      && Publish(body, Connects, None).response.value.status == 200
      && FirmwareRouter.Publish(body, brokers, newId, Connects, None).response == Some(FirmwareRouter.BadUrl)
  {
    var body := Obj(map["brokerIp" := Str(ip), "topic" := Str(topic), "message" := Str("hello"),
                        "mqttUsername" := Str(user), "mqttPassword" := Str(password)]);
    assert !IsFirmwareUrl("hello") by {
      assert !StartsWith("hello", "http://");
    }
    assert Get(body, "message") == Str("hello");
    assert Get(body, "brokerIp") == Str(ip);
  }
}
