/** routers/firmware-router.js: the firmware routes that list, download and
    delete files, and `POST /publish`, which announces a firmware URL to a
    broker through a reused or a freshly opened client. File contents and
    the file system are parameters: whether the file exists, and the error
    an `fs` call threw. */
module FirmwareRouter {
  import opened Strings
  import opened JsValues
  import opened Http
  import opened Ipv4
  import opened Clients
  import opened FirmwareFiles

  /** The host written into every version URL. */
  const Host := "13.201.135.43"

  /** `GET /get-all-versions`. */
  function Versions(dir: Listing): Response {
    VersionsRoute(Host, dir)
  }

  /** Every listed file whose name ends in ".bin" (lower case) and holds no
      line terminator yields a URL that this router's `/publish` accepts. */
  lemma ListedBinUrlsAccepted(names: seq<string>, i: nat, file: string)
    requires i < |names| && names[i] == file + ".bin" && NoLineTerminator(file)
    ensures IsFirmwareUrl(Versions(Names(names)).body.result[i])
  {
    assert AllOf(Host, IsHostChar);
    VersionUrlAccepted(Host, file);
  }

  const NotFound := Response(404, OutcomeBody(false, "File not found"))
  const BinOnly := Response(400, OutcomeBody(false, FilterError))

  /** A download either answers with an error or streams the file as an
      attachment. */
  datatype DownloadOutcome = Replied(response: Response) | Attachment(disposition: string)

  /** The characters Node's `setHeader` accepts in a header value: tab, the
      printable ASCII range and the code units 0x80 to 0xFF. */
  predicate IsHeaderChar(c: char) {
    c == '\t' || (' ' <= c <= '~') || ('\U{80}' <= c <= '\U{FF}')
  }

  /** The message of the error `setHeader` throws for any other character. */
  const HeaderCharError := "Invalid character in header content [\"Content-Disposition\"]"

  /** `GET /download/:filename`, given whether the file exists and whether
      reading it fails. The name goes into the Content-Disposition header
      before the stream opens, so a name `setHeader` refuses is answered by
      the catch block with the thrown message. */
  function Download(filename: string, present: bool, streamFails: bool): (r: DownloadOutcome)
    ensures !present ==> r == Replied(NotFound)
    ensures present && !IsBinName(filename) ==> r == Replied(BinOnly)
    ensures present && IsBinName(filename) && !AllOf(filename, IsHeaderChar) ==>
      r == Replied(Response(500, OutcomeBody(false, HeaderCharError)))
    ensures r.Attachment? <==> present && IsBinName(filename) && AllOf(filename, IsHeaderChar) && !streamFails
    ensures r.Attachment? ==> StartsWith(r.disposition, "attachment; filename=") && r.disposition[21..] == filename
  {
    var disposition := "attachment; filename=" + filename;
    assert AllOf(disposition, IsHeaderChar) <==> AllOf(filename, IsHeaderChar) by {
      assert forall i :: 0 <= i < |filename| ==> disposition[21 + i] == filename[i];
    }
    if !present then Replied(NotFound)
    else if !IsBinName(filename) then Replied(BinOnly)
    else if !AllOf(disposition, IsHeaderChar) then Replied(Response(500, OutcomeBody(false, HeaderCharError)))
    else if streamFails then Replied(Response(500, OutcomeBody(false, "Error streaming file")))
    else Attachment(disposition)
  }

  /** A ".bin" name with a character outside Latin-1, or with a line break
      (both reachable through percent-encoding in the URL), is refused by
      `setHeader` even though the file exists and is readable. */
  lemma UnsafeNamesRefused()
    ensures Download("\U{101}.bin", true, false) == Replied(Response(500, OutcomeBody(false, HeaderCharError)))
    ensures Download("a\n.bin", true, false) == Replied(Response(500, OutcomeBody(false, HeaderCharError)))
  {
    BinNameIff("\U{101}.bin");
    BinNameIff("a\n.bin");
    assert !IsHeaderChar("\U{101}.bin"[0]);
    assert !IsHeaderChar("a\n.bin"[1]);
  }

  /** `DELETE /delete/:filename`, given whether the file exists and the error
      `unlinkSync` threw, if any. */
  function Delete(filename: string, present: bool, unlinkError: Option<string>): (r: Response)
    ensures !present ==> r == NotFound
    ensures present && !IsBinName(filename) ==> r == BinOnly
    ensures r.status == 200 <==> present && IsBinName(filename) && unlinkError.None?
    ensures r.status == 500 <==> present && IsBinName(filename) && unlinkError.Some?
  {
    if !present then NotFound
    else if !IsBinName(filename) then BinOnly
    else match unlinkError
      case Some(m) => Response(500, OutcomeBody(false, "Delete error: " + m))
      case None => Response(200, OutcomeBody(true, "File " + filename + " deleted successfully"))
  }

  /** A missing file is answered 404 whatever its name, so the extension test
      never decides for a file that is not there; only an existing ".bin"
      file is ever streamed or deleted. */
  lemma ExistenceCheckedFirst(filename: string, streamFails: bool, unlinkError: Option<string>)
    ensures Download(filename, false, streamFails) == Replied(NotFound)
    ensures Delete(filename, false, unlinkError) == NotFound
    ensures Download(filename, true, streamFails).Attachment? ==> IsBinName(filename)
    ensures Delete(filename, true, unlinkError).status == 200 ==> IsBinName(filename)
  {
  }

  /** The loop's test on one `connectedBrokers` entry: its URL is set and
      contains the broker IP, it has a client, and that client is not
      reconnecting. */
  predicate Reusable(e: BrokerEntry, ip: string) {
    e.url.Some? && e.url.value != "" && Includes(e.url.value, ip)
    && e.client.Some? && !e.client.value.reconnecting
  }

  /** The index of the first reusable entry, in insertion order. */
  function FirstReusable(brokers: Registry<BrokerEntry>, ip: string): (k: Option<nat>)
    ensures k.Some? ==> k.value < |brokers| && Reusable(brokers[k.value].1, ip)
    ensures forall j :: 0 <= j < |brokers| && (k.None? || j < k.value) ==> !Reusable(brokers[j].1, ip)
    decreases |brokers|
  {
    if |brokers| == 0 then None
    else if Reusable(brokers[0].1, ip) then Some(0)
    else match FirstReusable(brokers[1..], ip)
      case None => None
      case Some(k) => Some(k + 1)
  }

  /** The client the search settles on. */
  function ReusableClient(brokers: Registry<BrokerEntry>, ip: string): Option<Client> {
    match FirstReusable(brokers, ip)
    case None => None
    case Some(k) => brokers[k].1.client
  }

  /** The `for (const [clientId, broker] of req.connectedBrokers)` search with
      its `break`. */
  method FindReusable(brokers: Registry<BrokerEntry>, ip: string) returns (client: Option<Client>)
    ensures client == ReusableClient(brokers, ip)
    ensures client.Some? ==> !client.value.reconnecting
    ensures client.None? <==> forall j :: 0 <= j < |brokers| ==> !Reusable(brokers[j].1, ip)
  {
    var i := 0;
    while i < |brokers|
      invariant 0 <= i <= |brokers|
      invariant forall j :: 0 <= j < i ==> !Reusable(brokers[j].1, ip)
    {
      var entry := brokers[i].1;
      if entry.url.Some? && entry.url.value != "" && Includes(entry.url.value, ip)
        && entry.client.Some? && !entry.client.value.reconnecting
      {
        assert FirstReusable(brokers, ip) == Some(i);
        return entry.client;
      }
      i := i + 1;
    }
    return None;
  }

  /** The first reusable entry decides, whatever follows it. */
  lemma FirstReusableWins(brokers: Registry<BrokerEntry>, later: Registry<BrokerEntry>, ip: string)
    requires FirstReusable(brokers, ip).Some?
    ensures ReusableClient(brokers + later, ip) == ReusableClient(brokers, ip)
  {
    var k := FirstReusable(brokers, ip).value;
    var both := brokers + later;
    assert both[k] == brokers[k];
    assert forall j :: 0 <= j < k ==> both[j] == brokers[j];
    assert FirstReusable(both, ip) == Some(k);
  }

  /** The broker URL of a freshly opened publish client. */
  function BrokerUrl(ip: string): string {
    "mqtt://" + ip + ":1883"
  }

  /** A publication and the client it went through. */
  datatype Sent = Sent(client: Client, publication: Publication)

  /** The answer (`None` when the request is never answered), the registry
      afterwards, the URL of a client opened for the request, and what was
      published through which client. */
  datatype PublishResult = PublishResult(
    response: Option<Response>,
    brokers: Registry<BrokerEntry>,
    newUrl: Option<string>,
    published: Option<Sent>)

  const MissingFields := Response(400, OutcomeBody(false, "Broker IP, topic, message, username, and password are required"))
  const BadIp := Response(400, OutcomeBody(false, "Invalid broker IP format"))
  const BadUrl := Response(400, OutcomeBody(false, "Invalid firmware URL format"))

  /** The five required body fields are all truthy. */
  predicate FieldsPresent(body: JsValue)
    requires Readable(body)
  {
    Truthy(Get(body, "brokerIp")) && Truthy(Get(body, "topic")) && Truthy(Get(body, "message"))
    && Truthy(Get(body, "mqttUsername")) && Truthy(Get(body, "mqttPassword"))
  }

  /** The request passes every check made before the registry is searched;
      the two regular-expression tests convert `brokerIp` and `message`. */
  predicate Admitted(body: JsValue) {
    Readable(body) && FieldsPresent(body)
    && Stringable(Get(body, "brokerIp")) && IsValidIPv4(ToStr(Get(body, "brokerIp")))
    && Stringable(Get(body, "message")) && IsFirmwareUrl(ToStr(Get(body, "message")))
  }

  /** A client found by the search is replaced by a fresh one when it has
      ended. (The test `client.reconnecting` at the same place never holds
      of a found client.) */
  predicate NeedsFreshClient(found: Option<Client>) {
    found.None? || found.value.ended || found.value.reconnecting
  }

  /** Publishing through `client` and answering once the publish callback
      settles its promise. Both of the callback's log templates write
      `topic`; when that throws, the promise never settles and the request
      is never answered. */
  function Announce(brokers: Registry<BrokerEntry>, newUrl: Option<string>, client: Client,
                    topic: JsValue, message: JsValue, ackError: Option<string>): (r: PublishResult)
    ensures r.brokers == brokers && r.newUrl == newUrl && r.published == Some(Sent(client, Publication(topic, message, 0)))
    ensures r.response.Some? <==> Stringable(topic)
    ensures r.response.Some? ==> (r.response.value.status == 200 <==> ackError.None?)
  {
    var response := match ackError
      case Some(m) => Response(500, OutcomeBody(false, "Publish error: " + m))
      case None => Response(200, OutcomeBody(true, PublishedMessage(message)));
    var answer := if Stringable(topic) then Some(response) else None;
    PublishResult(answer, brokers, newUrl, Some(Sent(client, Publication(topic, message, 0))))
  }

  /** `POST /publish`. `newId` is the random client id a fresh client gets,
      `connection` how its connection ends, `ackError` the error the
      publish callback reports. The body is destructured outside the `try`,
      so an unreadable body leaves the request unanswered; so does a
      `brokerIp` or `message` that a regular-expression test cannot convert,
      since those tests also run outside the `try`. */
  function Publish(body: JsValue, brokers: Registry<BrokerEntry>, newId: string,
                   connection: Connection, ackError: Option<string>): (r: PublishResult)
    ensures r.response.Some? && r.response.value.status == 400 ==>
      r.brokers == brokers && r.newUrl.None? && r.published.None?
    ensures r.published.Some? ==>
      && Admitted(body) && r.published.value.publication.qos == 0
      && !r.published.value.client.reconnecting && !r.published.value.client.ended
  {
    if !Readable(body) then PublishResult(None, brokers, None, None)
    else if !FieldsPresent(body) then PublishResult(Some(MissingFields), brokers, None, None)
    else
      var ip := ToStr(Get(body, "brokerIp"));
      var topic := Get(body, "topic");
      var message := Get(body, "message");
      if !Stringable(Get(body, "brokerIp")) then PublishResult(None, brokers, None, None)
      else if !IsValidIPv4(ip) then PublishResult(Some(BadIp), brokers, None, None)
      else if !Stringable(message) then PublishResult(None, brokers, None, None)
      else if !IsFirmwareUrl(ToStr(message)) then PublishResult(Some(BadUrl), brokers, None, None)
      else
        var found := ReusableClient(brokers, ip);
        if !NeedsFreshClient(found) then Announce(brokers, None, found.value, topic, message, ackError)
        else
          var url := BrokerUrl(ip);
          match connection
          case NoAnswer => PublishResult(None, brokers, Some(url), None)
          case ConnectFails(m) =>
            PublishResult(Some(Response(500, OutcomeBody(false, "Publish error: " + m))), brokers, Some(url), None)
          case Connects =>
            var client := Client(newId, true, false, false);
            Announce(MapSet(brokers, newId, BrokerEntry(Some(client), Some(url))), Some(url), client, topic, message, ackError)
  }

  /** The checks run in source order, and each failure is answered 400
      before the registry is searched; a field a test cannot convert leaves
      the request unanswered at that test. */
  lemma ChecksInOrder(body: JsValue, brokers: Registry<BrokerEntry>, newId: string, connection: Connection, ackError: Option<string>)
    requires Readable(body)
    ensures !FieldsPresent(body) ==> Publish(body, brokers, newId, connection, ackError).response == Some(MissingFields)
    ensures FieldsPresent(body) && !Stringable(Get(body, "brokerIp")) ==>
      Publish(body, brokers, newId, connection, ackError) == PublishResult(None, brokers, None, None)
    ensures FieldsPresent(body) && Stringable(Get(body, "brokerIp")) && !IsValidIPv4(ToStr(Get(body, "brokerIp"))) ==>
      Publish(body, brokers, newId, connection, ackError).response == Some(BadIp)
    ensures
      var ipOk := FieldsPresent(body) && Stringable(Get(body, "brokerIp")) && IsValidIPv4(ToStr(Get(body, "brokerIp")));
      && (ipOk && !Stringable(Get(body, "message")) ==>
            Publish(body, brokers, newId, connection, ackError) == PublishResult(None, brokers, None, None))
      && (ipOk && Stringable(Get(body, "message")) && !IsFirmwareUrl(ToStr(Get(body, "message"))) ==>
            Publish(body, brokers, newId, connection, ackError).response == Some(BadUrl))
  {
  }

  /** An admitted request reuses the first reusable client unless it has
      ended; then nothing is opened and the registry is unchanged. */
  lemma ReusesFirstClient(body: JsValue, brokers: Registry<BrokerEntry>, newId: string, connection: Connection, ackError: Option<string>)
    requires Admitted(body)
    ensures var found := ReusableClient(brokers, ToStr(Get(body, "brokerIp")));
      var r := Publish(body, brokers, newId, connection, ackError);
      && (r.newUrl.None? <==> found.Some? && !found.value.ended)
      && (r.newUrl.None? ==> r.brokers == brokers && r.published.value.client == found.value)
  {
  }

  /** A fresh client that connects is registered under its own id with the
      URL `mqtt://<ip>:1883`; every other entry is unaffected and the
      existing entries keep their order. */
  lemma RegistersFreshClient(body: JsValue, brokers: Registry<BrokerEntry>, newId: string, ackError: Option<string>, other: string)
    requires Admitted(body)
    requires NeedsFreshClient(ReusableClient(brokers, ToStr(Get(body, "brokerIp"))))
    ensures var r := Publish(body, brokers, newId, Connects, ackError);
      var url := BrokerUrl(ToStr(Get(body, "brokerIp")));
      && r.newUrl == Some(url)
      && MapGet(r.brokers, newId) == Some(BrokerEntry(Some(Client(newId, true, false, false)), Some(url)))
      && (other != newId ==> MapGet(r.brokers, other) == MapGet(brokers, other))
      && Keys(r.brokers)[..|brokers|] == Keys(brokers)
  {
    var url := BrokerUrl(ToStr(Get(body, "brokerIp")));
    MapSetGet(brokers, newId, BrokerEntry(Some(Client(newId, true, false, false)), Some(url)), other);
  }

  /** A fresh client that fails to connect, or never answers, leaves the
      registry unchanged and publishes nothing. */
  lemma FailedConnectionRegistersNothing(body: JsValue, brokers: Registry<BrokerEntry>, newId: string, connection: Connection, ackError: Option<string>)
    requires Admitted(body) && !connection.Connects?
    requires NeedsFreshClient(ReusableClient(brokers, ToStr(Get(body, "brokerIp"))))
    ensures var r := Publish(body, brokers, newId, connection, ackError);
      r.brokers == brokers && r.published.None?
      && (connection.ConnectFails? ==> r.response == Some(Response(500, OutcomeBody(false, "Publish error: " + connection.message))))
      && (connection.NoAnswer? ==> r.response.None?)
  {
  }

  /** The answer is 200 exactly when the request is admitted, a client is
      at hand (reused, or fresh and connected), the publish succeeds and the
      callback's log template converts `topic`. */
  lemma SuccessIff(body: JsValue, brokers: Registry<BrokerEntry>, newId: string, connection: Connection, ackError: Option<string>)
    ensures var r := Publish(body, brokers, newId, connection, ackError);
      var ok :=
        && Admitted(body)
        && (!NeedsFreshClient(ReusableClient(brokers, ToStr(Get(body, "brokerIp")))) || connection.Connects?)
        && ackError.None? && Stringable(Get(body, "topic"));
      (r.response.Some? && r.response.value.status == 200) <==> ok
  {
  }
}
