/** `POST /configurations` (routers/config-router.js), run after the bearer
    check has set `req.userId`. The broker lookup and the save are
    parameters: what `Broker.findOne` found and the error `save` threw. */
module ConfigRouter {
  import opened JsValues
  import opened Http

  /** The document handed to `save`. */
  datatype Configuration = Configuration(configurations: seq<JsValue>, userId: JsValue, brokerId: JsValue, topicName: string)

  /** What `Broker.findOne({ _id: brokerId, userId })` gives. */
  datatype Lookup = Found | Missing | LookupFails(message: string)

  /** The response, and the configuration saved, if any. */
  datatype ConfigResult = ConfigResult(response: Response, saved: Option<Configuration>)

  const ArrayRequired := Response(400, MessageBody("Configurations array is required"))
  const BadUserId := Response(400, MessageBody("Invalid or missing userId"))
  const BrokerIdRequired := Response(400, MessageBody("Broker ID is required"))
  const TopicRequired := Response(400, MessageBody("Valid topic name is required"))
  const BrokerNotFound := Response(404, MessageBody("Broker not found"))
  const SavedResponse := Response(200, MessageBody("Configuration saved successfully"))

  /** The `catch` answer; `None` stands for the engine's own TypeError text. */
  function SaveFailed(detail: Option<string>): Response {
    Response(400, DetailBody("Failed to save configuration", detail))
  }

  /** The `topicName` test passes: a string that is not blank after `trim()`. */
  predicate UsableTopic(topicName: JsValue) {
    topicName.Str? && Trim(topicName.s) != ""
  }

  /** The four early-return checks, in source order; `None` when all pass. */
  function Validate(body: JsValue, reqUserId: JsValue): (r: Option<Response>)
    requires Readable(body)
    ensures r.Some? ==> r.value.status == 400
  {
    var configurations := Get(body, "configurations");
    var userId := Get(body, "userId");
    if !configurations.Arr? then Some(ArrayRequired)
    else if !Truthy(userId) || !StrictEquals(userId, reqUserId) then Some(BadUserId)
    else if !Truthy(Get(body, "brokerId")) then Some(BrokerIdRequired)
    else if !UsableTopic(Get(body, "topicName")) then Some(TopicRequired)
    else None
  }

  /** The route. */
  function SaveConfiguration(body: JsValue, reqUserId: JsValue, lookup: Lookup, saveError: Option<string>): (r: ConfigResult)
    ensures r.saved.Some? <==> r.response == SavedResponse
    ensures r.saved.Some? ==>
      && Readable(body) && UsableTopic(Get(body, "topicName"))
      && r.saved.value.topicName == Trim(Get(body, "topicName").s)
  {
    if !Readable(body) then ConfigResult(SaveFailed(None), None)
    else match Validate(body, reqUserId)
      case Some(response) => ConfigResult(response, None)
      case None =>
        match lookup
        case LookupFails(m) => ConfigResult(SaveFailed(Some(m)), None)
        case Missing => ConfigResult(BrokerNotFound, None)
        case Found =>
          var configuration := Configuration(Get(body, "configurations").items, Get(body, "userId"),
                                             Get(body, "brokerId"), Trim(Get(body, "topicName").s));
          match saveError
          case Some(m) => ConfigResult(SaveFailed(Some(m)), None)
          case None => ConfigResult(SavedResponse, Some(configuration))
  }

  /** Each check answers 400 with its own message, and the first one that
      fails decides, whatever the body holds further on. */
  lemma ChecksInOrder(body: JsValue, reqUserId: JsValue)
    requires Readable(body)
    ensures !Get(body, "configurations").Arr? ==> Validate(body, reqUserId) == Some(ArrayRequired)
    ensures
      var badUser := !Truthy(Get(body, "userId")) || !StrictEquals(Get(body, "userId"), reqUserId);
      Get(body, "configurations").Arr? && badUser ==> Validate(body, reqUserId) == Some(BadUserId)
    ensures Validate(body, reqUserId) == Some(BrokerIdRequired) <==>
      Get(body, "configurations").Arr? && Truthy(Get(body, "userId")) && StrictEquals(Get(body, "userId"), reqUserId)
      && !Truthy(Get(body, "brokerId"))
    ensures Validate(body, reqUserId) == Some(TopicRequired) ==> !UsableTopic(Get(body, "topicName"))
  {
  }

  /** A failed check is answered before the broker lookup and the save:
      neither affects the answer. */
  lemma LookupOnlyAfterChecks(body: JsValue, reqUserId: JsValue, l1: Lookup, l2: Lookup, e1: Option<string>, e2: Option<string>)
    requires Readable(body) && Validate(body, reqUserId).Some?
    ensures SaveConfiguration(body, reqUserId, l1, e1) == SaveConfiguration(body, reqUserId, l2, e2)
    ensures SaveConfiguration(body, reqUserId, l1, e1).response == Validate(body, reqUserId).value
  {
  }

  /** A blank topic name (empty or white space only) is refused, like a
      missing one. */
  lemma BlankTopicRefused(s: string)
    ensures UsableTopic(Str(s)) <==> !AllSpace(s)
  {
    TrimEmptyIff(s);
  }

  /** A configuration is saved exactly when the checks pass, the broker
      belongs to the user and the save succeeds; the topic name is stored
      trimmed, so it is not empty and neither of its ends is white space,
      and the other fields are stored as given. */
  lemma SavedIff(body: JsValue, reqUserId: JsValue, lookup: Lookup, saveError: Option<string>)
    ensures var r := SaveConfiguration(body, reqUserId, lookup, saveError);
      r.saved.Some? <==> Readable(body) && Validate(body, reqUserId).None? && lookup == Found && saveError.None?
    ensures var r := SaveConfiguration(body, reqUserId, lookup, saveError);
      r.saved.Some? ==>
        && r.saved.value.configurations == Get(body, "configurations").items
        && r.saved.value.userId == Get(body, "userId") && StrictEquals(r.saved.value.userId, reqUserId)
        && r.saved.value.brokerId == Get(body, "brokerId")
        && |r.saved.value.topicName| > 0
        && !IsJsSpace(r.saved.value.topicName[0])
        && !IsJsSpace(r.saved.value.topicName[|r.saved.value.topicName| - 1])
  {
    var r := SaveConfiguration(body, reqUserId, lookup, saveError);
    if r.saved.Some? {
      var s := Get(body, "topicName").s;
      var i, j := TrimShape(s);
      assert r.saved.value.topicName == s[i..j];
    }
  }
}
