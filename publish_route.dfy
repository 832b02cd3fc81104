/** `POST /publish` (routers/publish-route.js): the `inputSets` check, the
    choice of the first registered client, and the loop that publishes each
    usable entry. */
module PublishRoute {
  import opened JsValues
  import opened Http
  import opened Clients

  /** The publications issued, in order, and whether the loop ran to its end. */
  datatype Plan = Plan(pubs: seq<Publication>, completed: bool)

  /** The conversions one entry's turn of the loop makes succeed. A skipped
      entry's warning writes `topic` and `payload` into its template.
      Otherwise `parseInt` converts `qosLevel`, and for a QoS outside 0..2
      the warning's template writes `qosLevel` and `topic`. */
  predicate Converts(item: JsValue)
    requires Readable(item)
  {
    var topic := Get(item, "topic");
    var payload := Get(item, "payload");
    var qosLevel := Get(item, "qosLevel");
    if !Truthy(topic) || !Truthy(payload) then Stringable(topic) && Stringable(payload)
    else Stringable(qosLevel) && (QosInRange(qosLevel) || Stringable(topic))
  }

  /** The entry is destructured and its turn of the loop throws nothing. */
  predicate Runs(item: JsValue) {
    Readable(item) && Converts(item)
  }

  /** What one entry contributes: nothing when `topic` or `payload` is falsy,
      else one publication with QoS `parseInt(qosLevel, 10) || 0`. */
  function EntryPubs(item: JsValue): (pubs: seq<Publication>)
    requires Readable(item)
    ensures |pubs| <= 1
    ensures |pubs| == 1 <==> Truthy(Get(item, "topic")) && Truthy(Get(item, "payload"))
    ensures forall k :: 0 <= k < |pubs| ==>
      pubs[k] == Publication(Get(item, "topic"), Get(item, "payload"), QosOf(Get(item, "qosLevel")))
  {
    var topic := Get(item, "topic");
    var payload := Get(item, "payload");
    if !Truthy(topic) || !Truthy(payload) then []
    else [Publication(topic, payload, QosOf(Get(item, "qosLevel")))]
  }

  /** What the `for (const { topic, qosLevel, payload } of inputSets)` loop
      issues, until an entry cannot be destructured or one of its
      conversions throws. */
  function Publications(items: seq<JsValue>): (p: Plan)
    ensures p.completed <==> Every(items, Runs)
    ensures |p.pubs| <= |items|
    ensures forall k :: 0 <= k < |p.pubs| ==> Truthy(p.pubs[k].topic) && Truthy(p.pubs[k].payload)
    decreases |items|
  {
    if |items| == 0 then Plan([], true)
    else if !Runs(items[0]) then
      EveryCons(items, Runs);
      Plan([], false)
    else
      var rest := Publications(items[1..]);
      EveryCons(items, Runs);
      Plan(EntryPubs(items[0]) + rest.pubs, rest.completed)
  }

  lemma PublicationsSingle(item: JsValue)
    requires Runs(item)
    ensures Publications([item]) == Plan(EntryPubs(item), true)
  {
    assert [item][1..] == [];
  }

  /** Entries are published in input order. */
  lemma {:induction false} PublicationsAppend(a: seq<JsValue>, b: seq<JsValue>)
    requires Every(a, Runs)
    ensures Publications(a + b) == Plan(Publications(a).pubs + Publications(b).pubs, Publications(b).completed)
    decreases |a|
  {
    if |a| == 0 {
      assert a + b == b;
    } else {
      assert (a + b)[0] == a[0];
      assert (a + b)[1..] == a[1..] + b;
      EveryCons(a, Runs);
      PublicationsAppend(a[1..], b);
      var e := EntryPubs(a[0]);
      assert e + Publications(a[1..]).pubs + Publications(b).pubs == e + (Publications(a[1..]).pubs + Publications(b).pubs);
    }
  }

  /** The loop stops at the first entry that cannot be destructured or
      throws; what it published before stays published. */
  lemma PublicationsStop(a: seq<JsValue>, bad: JsValue, b: seq<JsValue>)
    requires Every(a, Runs) && !Runs(bad)
    ensures Publications(a + [bad] + b) == Plan(Publications(a).pubs, false)
  {
    PublicationsAppend(a, [bad] + b);
    assert a + [bad] + b == a + ([bad] + b);
  }

  /** One more entry that runs adds its own publications at the end. */
  lemma {:induction false} PublicationsStep(items: seq<JsValue>, i: nat)
    requires i < |items| && Every(items[..i], Runs) && Runs(items[i])
    ensures Every(items[..i + 1], Runs)
    ensures Publications(items[..i + 1]).pubs == Publications(items[..i]).pubs + EntryPubs(items[i])
  {
    PublicationsAppend(items[..i], [items[i]]);
    PublicationsSingle(items[i]);
    assert items[..i] + [items[i]] == items[..i + 1];
    EverySnoc(items[..i], items[i], Runs);
  }

  /** An entry at `i` that does not run ends the loop with what came before it. */
  lemma {:induction false} PublicationsStopAt(items: seq<JsValue>, i: nat)
    requires i < |items| && Every(items[..i], Runs) && !Runs(items[i])
    ensures Publications(items) == Plan(Publications(items[..i]).pubs, false)
  {
    var before, after := items[..i], items[i + 1..];
    assert items == before + [items[i]] + after;
    PublicationsStop(before, items[i], after);
  }

  /** The loop as the route runs it. */
  method PublishEach(items: seq<JsValue>) returns (pubs: seq<Publication>, completed: bool)
    ensures Plan(pubs, completed) == Publications(items)
  {
    pubs := [];
    var i := 0;
    while i < |items|
      invariant 0 <= i <= |items|
      invariant Every(items[..i], Runs)
      invariant pubs == Publications(items[..i]).pubs
    {
      if !Readable(items[i]) {
        PublicationsStopAt(items, i);
        return pubs, false;
      }
      var topic := Get(items[i], "topic");
      var payload := Get(items[i], "payload");
      var qosLevel := Get(items[i], "qosLevel");
      var throws := if !Truthy(topic) || !Truthy(payload) then !Stringable(topic) || !Stringable(payload)
        else !Stringable(qosLevel) || (!QosInRange(qosLevel) && !Stringable(topic));
      if throws {
        PublicationsStopAt(items, i);
        return pubs, false;
      }
      PublicationsStep(items, i);
      if Truthy(topic) && Truthy(payload) {
        pubs := pubs + [Publication(topic, payload, QosOf(qosLevel))];
      }
      i := i + 1;
    }
    assert items[..i] == items;
    completed := true;
  }

  /** The response, the client chosen, and what was handed to it. */
  datatype PublishResult = PublishResult(response: Response, client: Option<Client>, pubs: seq<Publication>)

  const InvalidInputSets := Response(400, ErrorBody("Invalid or empty inputSets"))
  const NoBroker := Response(503, ErrorBody("No connected MQTT broker available"))
  const InternalError := Response(500, ErrorBody("Internal server error"))
  const Processed := Response(200, MessageBody("Publish request processed successfully"))

  /** `POST /publish`. The answer does not wait for the publish callbacks. */
  function PublishRouteResult(body: JsValue, handlers: Registry<Client>, brokers: Registry<BrokerEntry>): (r: PublishResult)
    ensures |r.pubs| > 0 ==> r.client == FirstClient(handlers, brokers) && r.client.Some? && r.client.value.connected
  {
    if !Readable(body) then PublishResult(InternalError, None, [])
    else
      var inputSets := Get(body, "inputSets");
      if !inputSets.Arr? || |inputSets.items| == 0 then PublishResult(InvalidInputSets, None, [])
      else
        var client := FirstClient(handlers, brokers);
        if client.None? || !client.value.connected then PublishResult(NoBroker, None, [])
        else
          var plan := Publications(inputSets.items);
          PublishResult(if plan.completed then Processed else InternalError, client, plan.pubs)
  }

  /** A non-array or empty `inputSets` is answered 400 and nothing is
      published, whatever clients are registered. */
  lemma RejectsBadInputSets(body: JsValue, handlers: Registry<Client>, brokers: Registry<BrokerEntry>)
    requires Readable(body) && (!Get(body, "inputSets").Arr? || |Get(body, "inputSets").items| == 0)
    ensures PublishRouteResult(body, handlers, brokers) == PublishResult(InvalidInputSets, None, [])
  {
  }

  /** With usable input, the answer is 503 exactly when the first client is
      missing or not connected, and then nothing is published. */
  lemma NoConnectedClient(body: JsValue, handlers: Registry<Client>, brokers: Registry<BrokerEntry>)
    requires Readable(body) && Get(body, "inputSets").Arr? && |Get(body, "inputSets").items| > 0
    ensures PublishRouteResult(body, handlers, brokers).response.status == 503
      <==> FirstClient(handlers, brokers).None? || !FirstClient(handlers, brokers).value.connected
    ensures PublishRouteResult(body, handlers, brokers).response.status == 503 ==> PublishRouteResult(body, handlers, brokers).pubs == []
  {
  }

  /** With a connected client, every usable entry is published in order, and
      the answer is 200 exactly when the loop ran to its end. */
  lemma PublishesAll(body: JsValue, handlers: Registry<Client>, brokers: Registry<BrokerEntry>)
    requires Readable(body) && Get(body, "inputSets").Arr? && |Get(body, "inputSets").items| > 0
    requires FirstClient(handlers, brokers).Some? && FirstClient(handlers, brokers).value.connected
    ensures PublishRouteResult(body, handlers, brokers).pubs == Publications(Get(body, "inputSets").items).pubs
    ensures PublishRouteResult(body, handlers, brokers).response == Processed <==> Every(Get(body, "inputSets").items, Runs)
    ensures PublishRouteResult(body, handlers, brokers).response != Processed ==> PublishRouteResult(body, handlers, brokers).response == InternalError
  {
  }

  /** An entry missing its payload is skipped, and its neighbours are still published. */
  lemma SkipsEntryWithoutPayload(a: JsValue, topic: string, b: JsValue)
    requires Runs(a) && Runs(b)
    ensures
      var skipped := Obj(map["topic" := Str(topic)]);
      Publications([a, skipped, b]).pubs == EntryPubs(a) + EntryPubs(b)
  {
    var skipped := Obj(map["topic" := Str(topic)]);
    assert Get(skipped, "payload") == Undefined;
    assert Get(skipped, "topic") == Str(topic);
    assert Runs(skipped);
    assert EntryPubs(skipped) == [];
    var rest := Publications([skipped, b]);
    assert rest.pubs == EntryPubs(b) by {
      PublicationsAppend([skipped], [b]);
      PublicationsSingle(skipped);
      PublicationsSingle(b);
      assert [skipped] + [b] == [skipped, b];
    }
    PublicationsAppend([a], [skipped, b]);
    PublicationsSingle(a);
    assert [a] + [skipped, b] == [a, skipped, b];
  }

  /** A skipped entry whose `topic` has its own `toString` makes the
      warning's template throw: the loop stops there, with the entries
      before it already published, and the answer is 500. */
  lemma SkipWarningThrows(a: seq<JsValue>, n: int, b: seq<JsValue>)
    requires Every(a, Runs)
    ensures
      var bad := Obj(map["topic" := Obj(map["toString" := Num(n)])]);
      Publications(a + [bad] + b) == Plan(Publications(a).pubs, false)
  {
    var bad := Obj(map["topic" := Obj(map["toString" := Num(n)])]);
    assert Get(bad, "topic") == Obj(map["toString" := Num(n)]);
    assert Get(bad, "payload") == Undefined;
    assert !Runs(bad);
    PublicationsStop(a, bad, b);
  }

  /** A `qosLevel` with its own `toString` makes `parseInt` throw: the loop
      stops there, with the entries before it already published. */
  lemma UnconvertibleQosStops(a: seq<JsValue>, topic: string, payload: string, n: int, b: seq<JsValue>)
    requires Every(a, Runs) && topic != "" && payload != ""
    ensures
      var bad := Obj(map["topic" := Str(topic), "payload" := Str(payload), "qosLevel" := Obj(map["toString" := Num(n)])]);
      Publications(a + [bad] + b) == Plan(Publications(a).pubs, false)
  {
    var bad := Obj(map["topic" := Str(topic), "payload" := Str(payload), "qosLevel" := Obj(map["toString" := Num(n)])]);
    assert Get(bad, "topic") == Str(topic) && Get(bad, "payload") == Str(payload);
    assert Get(bad, "qosLevel") == Obj(map["toString" := Num(n)]);
    assert !Runs(bad);
    PublicationsStop(a, bad, b);
  }
}
