/** `POST /subscribe` and `GET /messages` (routers/subscribe-router.js): the
    request checks, the per-topic subscribe loop run once the broker connects,
    and the module-level store of the last 100 messages received. */
module SubscribeRouter {
  import opened JsValues
  import opened Http
  import opened Clients

  // ---------------------------------------------------------------------------
  // The subscribe loop.

  /** One `mqttClient.subscribe(topicFilter, { qos })` call. */
  datatype Subscription = Subscription(topic: JsValue, qos: int)

  /** The subscriptions issued, in order, and whether the loop ran to its end
      (it stops with a TypeError at an entry that does not `Runs`). */
  datatype Plan = Plan(subs: seq<Subscription>, completed: bool)

  /** The conversions one entry's turn of the loop makes succeed. A falsy
      `topicFilter` is skipped with a warning that passes it as a separate
      argument, which converts nothing. Otherwise `parseInt` converts
      `qosLevel`, and for a QoS outside 0..2 the warning's template writes
      `qosLevel` and `topicFilter`. */
  predicate Converts(item: JsValue)
    requires Readable(item)
  {
    var topic := Get(item, "topicFilter");
    var qosLevel := Get(item, "qosLevel");
    !Truthy(topic) || (Stringable(qosLevel) && (QosInRange(qosLevel) || Stringable(topic)))
  }

  /** The entry is destructured and its turn of the loop throws nothing. */
  predicate Runs(item: JsValue) {
    Readable(item) && Converts(item)
  }

  /** The subscription one entry contributes: none when its `topicFilter`
      is falsy, else that topic with QoS `parseInt(qosLevel, 10) || 0`. */
  function EntrySubs(item: JsValue): (subs: seq<Subscription>)
    requires Readable(item)
    ensures |subs| <= 1
    ensures |subs| == 1 <==> Truthy(Get(item, "topicFilter"))
    ensures forall k :: 0 <= k < |subs| ==> subs[k] == Subscription(Get(item, "topicFilter"), QosOf(Get(item, "qosLevel")))
  {
    var topic := Get(item, "topicFilter");
    if Truthy(topic) then [Subscription(topic, QosOf(Get(item, "qosLevel")))] else []
  }

  /** What the `for (const { topicFilter, qosLevel } of inputSets)` loop
      issues, entry by entry, until an entry cannot be destructured or one
      of its conversions throws. */
  function Subscriptions(items: seq<JsValue>): (p: Plan)
    ensures p.completed <==> Every(items, Runs)
    ensures |p.subs| <= |items|
    ensures forall k :: 0 <= k < |p.subs| ==> Truthy(p.subs[k].topic)
    decreases |items|
  {
    if |items| == 0 then Plan([], true)
    else if !Runs(items[0]) then
      EveryCons(items, Runs);
      Plan([], false)
    else
      var rest := Subscriptions(items[1..]);
      EveryCons(items, Runs);
      Plan(EntrySubs(items[0]) + rest.subs, rest.completed)
  }

  /** A single entry that runs gives its own subscription, or none when its
      `topicFilter` is falsy. */
  lemma SubscriptionsSingle(item: JsValue)
    requires Runs(item)
    ensures Subscriptions([item]) == Plan(EntrySubs(item), true)
  {
    assert [item][1..] == [];
  }

  /** Entries are subscribed in input order: the subscriptions of `a + b` are
      those of `a` followed by those of `b`, when `a` runs to its end. */
  lemma {:induction false} SubscriptionsAppend(a: seq<JsValue>, b: seq<JsValue>)
    requires Every(a, Runs)
    ensures Subscriptions(a + b) == Plan(Subscriptions(a).subs + Subscriptions(b).subs, Subscriptions(b).completed)
    decreases |a|
  {
    if |a| == 0 {
      assert a + b == b;
    } else {
      assert (a + b)[0] == a[0];
      assert (a + b)[1..] == a[1..] + b;
      EveryCons(a, Runs);
      SubscriptionsAppend(a[1..], b);
      var e := EntrySubs(a[0]);
      assert e + Subscriptions(a[1..]).subs + Subscriptions(b).subs == e + (Subscriptions(a[1..]).subs + Subscriptions(b).subs);
    }
  }

  /** The loop stops at the first entry that cannot be destructured or
      throws, keeping what it issued before it. */
  lemma SubscriptionsStop(a: seq<JsValue>, bad: JsValue, b: seq<JsValue>)
    requires Every(a, Runs) && !Runs(bad)
    ensures Subscriptions(a + [bad] + b) == Plan(Subscriptions(a).subs, false)
  {
    SubscriptionsAppend(a, [bad] + b);
    assert a + [bad] + b == a + ([bad] + b);
  }

  /** A `qosLevel` outside 0..2, such as 5, is passed to the client unchanged;
      only the warning notices it. */
  lemma OutOfRangeQosPassesThrough(topic: string)
    ensures
      var item := Obj(map["topicFilter" := Str(topic), "qosLevel" := Num(5)]);
      topic != "" ==> Subscriptions([item]).subs == [Subscription(Str(topic), 5)]
  {
    var item := Obj(map["topicFilter" := Str(topic), "qosLevel" := Num(5)]);
    QosOfNumber(5);
    assert Get(item, "topicFilter") == Str(topic);
    assert Runs(item);
    SubscriptionsSingle(item);
  }

  /** A `qosLevel` with its own `toString` makes `parseInt` throw: the loop
      stops there, after the entries before it were subscribed. */
  lemma UnconvertibleQosStops(a: seq<JsValue>, topic: string, n: int, b: seq<JsValue>)
    requires Every(a, Runs) && topic != ""
    ensures
      var bad := Obj(map["topicFilter" := Str(topic), "qosLevel" := Obj(map["toString" := Num(n)])]);
      Subscriptions(a + [bad] + b) == Plan(Subscriptions(a).subs, false)
  {
    var bad := Obj(map["topicFilter" := Str(topic), "qosLevel" := Obj(map["toString" := Num(n)])]);
    assert Get(bad, "qosLevel") == Obj(map["toString" := Num(n)]);
    assert !Runs(bad);
    SubscriptionsStop(a, bad, b);
  }

  /** One more entry that runs adds its own subscriptions at the end. */
  lemma {:induction false} SubscriptionsStep(items: seq<JsValue>, i: nat)
    requires i < |items| && Every(items[..i], Runs) && Runs(items[i])
    ensures Every(items[..i + 1], Runs)
    ensures Subscriptions(items[..i + 1]).subs == Subscriptions(items[..i]).subs + EntrySubs(items[i])
  {
    SubscriptionsAppend(items[..i], [items[i]]);
    SubscriptionsSingle(items[i]);
    assert items[..i] + [items[i]] == items[..i + 1];
    EverySnoc(items[..i], items[i], Runs);
  }

  /** An entry at `i` that does not run ends the loop with what came before it. */
  lemma {:induction false} SubscriptionsStopAt(items: seq<JsValue>, i: nat)
    requires i < |items| && Every(items[..i], Runs) && !Runs(items[i])
    ensures Subscriptions(items) == Plan(Subscriptions(items[..i]).subs, false)
  {
    var before, after := items[..i], items[i + 1..];
    assert items == before + [items[i]] + after;
    SubscriptionsStop(before, items[i], after);
  }

  /** The loop as the route runs it. */
  method SubscribeEach(items: seq<JsValue>) returns (subs: seq<Subscription>, completed: bool)
    ensures Plan(subs, completed) == Subscriptions(items)
  {
    subs := [];
    var i := 0;
    while i < |items|
      invariant 0 <= i <= |items|
      invariant Every(items[..i], Runs)
      invariant subs == Subscriptions(items[..i]).subs
    {
      if !Readable(items[i]) {
        SubscriptionsStopAt(items, i);
        return subs, false;
      }
      var topic := Get(items[i], "topicFilter");
      if Truthy(topic) {
        var qosLevel := Get(items[i], "qosLevel");
        if !Stringable(qosLevel) || (!QosInRange(qosLevel) && !Stringable(topic)) {
          SubscriptionsStopAt(items, i);
          return subs, false;
        }
      }
      SubscriptionsStep(items, i);
      if Truthy(topic) {
        subs := subs + [Subscription(topic, QosOf(Get(items[i], "qosLevel")))];
      }
      i := i + 1;
    }
    assert items[..i] == items;
    completed := true;
  }

  // ---------------------------------------------------------------------------
  // The route.

  /** The client the route opens: `mqtt://<brokerIp>` with the credentials of
      the first entry, each left undefined when falsy. */
  datatype ClientOptions = ClientOptions(url: string, username: Option<JsValue>, password: Option<JsValue>)

  /** The response sent, the client opened, and the subscriptions issued.
      There is no response when the broker never answers, and none when the
      loop stops at an entry that cannot be destructured or whose
      conversion throws: the loop runs in the `connect` callback, outside
      the route's `try`, so that TypeError is an uncaught exception of the
      process, not an error answer. */
  datatype SubscribeResult = SubscribeResult(response: Option<Response>, client: Option<ClientOptions>, subs: seq<Subscription>)

  function OrUndefined(v: JsValue): Option<JsValue> {
    if Truthy(v) then Some(v) else None
  }

  function OptionsOf(first: JsValue): ClientOptions
    requires Readable(first)
  {
    ClientOptions("mqtt://" + ToStr(Get(first, "brokerIp")),
      OrUndefined(Get(first, "mqttUsername")), OrUndefined(Get(first, "mqttPassword")))
  }

  const Internal := ThrownBody("Internal server error: ")

  /** `POST /subscribe` for a request body, given what the broker does first. */
  function SubscribeRoute(body: JsValue, connection: Connection): (r: SubscribeResult)
    ensures r.client.Some? ==>
      && Readable(body) && Get(body, "inputSets").Arr? && |Get(body, "inputSets").items| > 0
      && Readable(Get(body, "inputSets").items[0])
      && Stringable(Get(Get(body, "inputSets").items[0], "brokerIp"))
      && r.client.value == OptionsOf(Get(body, "inputSets").items[0])
  {
    if !Readable(body) then SubscribeResult(Some(Response(500, Internal)), None, [])
    else
      var inputSets := Get(body, "inputSets");
      if !inputSets.Arr? || |inputSets.items| == 0 then
        SubscribeResult(Some(Response(400, ErrorBody("Invalid or empty inputSets"))), None, [])
      else if !Readable(inputSets.items[0]) then
        SubscribeResult(Some(Response(500, Internal)), None, [])
      else if !Truthy(Get(inputSets.items[0], "brokerIp")) then
        SubscribeResult(Some(Response(400, ErrorBody("Broker IP is required"))), None, [])
      else if !Stringable(Get(inputSets.items[0], "brokerIp")) then
        SubscribeResult(Some(Response(500, Internal)), None, [])
      else
        var options := Some(OptionsOf(inputSets.items[0]));
        match connection
        case NoAnswer => SubscribeResult(None, options, [])
        case ConnectFails(m) =>
          SubscribeResult(Some(Response(500, ErrorBody("MQTT connection error: " + m))), options, [])
        case Connects =>
          var plan := Subscriptions(inputSets.items);
          SubscribeResult(if plan.completed then Some(Response(200, MessageBody("Subscribed successfully"))) else None,
            options, plan.subs)
  }

  /** A body whose `inputSets` is not an array, or is empty, is answered 400
      before any client is opened. */
  lemma RejectsBadInputSets(body: JsValue, connection: Connection)
    requires Readable(body) && (!Get(body, "inputSets").Arr? || |Get(body, "inputSets").items| == 0)
    ensures SubscribeRoute(body, connection) == SubscribeResult(Some(Response(400, ErrorBody("Invalid or empty inputSets"))), None, [])
  {
  }

  /** A first entry without a `brokerIp` is answered 400 before any client is opened. */
  lemma RejectsMissingBrokerIp(body: JsValue, connection: Connection)
    requires Readable(body) && Get(body, "inputSets").Arr? && |Get(body, "inputSets").items| > 0
    requires Readable(Get(body, "inputSets").items[0]) && !Truthy(Get(Get(body, "inputSets").items[0], "brokerIp"))
    ensures SubscribeRoute(body, connection) == SubscribeResult(Some(Response(400, ErrorBody("Broker IP is required"))), None, [])
  {
  }

  /** Once the broker connects, every entry's subscriptions are issued, and the
      answer is 200 exactly when the loop ran to its end. */
  lemma ConnectedSubscribesAll(body: JsValue)
    requires Readable(body) && Get(body, "inputSets").Arr? && |Get(body, "inputSets").items| > 0
    requires Readable(Get(body, "inputSets").items[0]) && Truthy(Get(Get(body, "inputSets").items[0], "brokerIp"))
    requires Stringable(Get(Get(body, "inputSets").items[0], "brokerIp"))
    ensures SubscribeRoute(body, Connects).subs == Subscriptions(Get(body, "inputSets").items).subs
    ensures SubscribeRoute(body, Connects).response == Some(Response(200, MessageBody("Subscribed successfully")))
      <==> Every(Get(body, "inputSets").items, Runs)
  {
  }

  /** A `brokerIp` that `String` cannot convert makes the URL template
      throw inside the `try`: 500, and no client is opened. */
  lemma UnconvertibleBrokerIpIsInternalError(body: JsValue, connection: Connection)
    requires Readable(body) && Get(body, "inputSets").Arr? && |Get(body, "inputSets").items| > 0
    requires Readable(Get(body, "inputSets").items[0]) && !Stringable(Get(Get(body, "inputSets").items[0], "brokerIp"))
    ensures SubscribeRoute(body, connection) == SubscribeResult(Some(Response(500, Internal)), None, [])
  {
  }

  /** With usable input, a broker that refuses the connection is answered
      500 with the library's message, and one that never answers leaves the
      request pending; either way the client was opened and nothing is
      subscribed. */
  lemma UnconnectedBrokerSubscribesNothing(body: JsValue, m: string)
    requires Readable(body) && Get(body, "inputSets").Arr? && |Get(body, "inputSets").items| > 0
    requires Readable(Get(body, "inputSets").items[0]) && Truthy(Get(Get(body, "inputSets").items[0], "brokerIp"))
    requires Stringable(Get(Get(body, "inputSets").items[0], "brokerIp"))
    ensures SubscribeRoute(body, ConnectFails(m)).response == Some(Response(500, ErrorBody("MQTT connection error: " + m)))
    ensures SubscribeRoute(body, NoAnswer).response.None?
    ensures SubscribeRoute(body, ConnectFails(m)).subs == [] && SubscribeRoute(body, NoAnswer).subs == []
    ensures SubscribeRoute(body, NoAnswer).client == Some(OptionsOf(Get(body, "inputSets").items[0]))
  {
  }

  // ---------------------------------------------------------------------------
  // The message store.

  /** An entry of `messages`: the topic, the payload as text and the packet's QoS. */
  datatype StoredMessage = StoredMessage(topic: string, payload: string, qos: int)

  const Capacity: nat := 100

  /** `messages.push(m)`, then one `shift()` when the length exceeds 100. */
  function Pushed(ms: seq<StoredMessage>, m: StoredMessage): (r: seq<StoredMessage>)
    requires |ms| <= Capacity
    ensures |r| <= Capacity && |r| > 0 && r[|r| - 1] == m
    ensures |ms| < Capacity ==> r == ms + [m]
    ensures |ms| == Capacity ==> r == ms[1..] + [m]
  {
    var n := ms + [m];
    if |n| > Capacity then n[1..] else n
  }

  /** The last `k` elements of `s` (all of them when there are fewer). */
  function LastN<T>(s: seq<T>, k: nat): seq<T> {
    if |s| <= k then s else s[|s| - k..]
  }

  /** The store after a sequence of messages, in arrival order. */
  function PushAll(ms: seq<StoredMessage>, xs: seq<StoredMessage>): (r: seq<StoredMessage>)
    requires |ms| <= Capacity
    ensures |r| <= Capacity
    decreases |xs|
  {
    if |xs| == 0 then ms else PushAll(Pushed(ms, xs[0]), xs[1..])
  }

  /** The store is a FIFO of capacity 100: after any sequence of messages it
      holds the last 100 of everything received, oldest first. */
  lemma {:induction false} PushAllKeepsLast(ms: seq<StoredMessage>, xs: seq<StoredMessage>)
    requires |ms| <= Capacity
    ensures PushAll(ms, xs) == LastN(ms + xs, Capacity)
    decreases |xs|
  {
    if |xs| == 0 {
      assert ms + xs == ms;
    } else {
      var m1 := Pushed(ms, xs[0]);
      PushAllKeepsLast(m1, xs[1..]);
      assert m1 == LastN(ms + [xs[0]], Capacity);
      LastNAppend(ms + [xs[0]], xs[1..]);
      assert ms + [xs[0]] + xs[1..] == ms + xs;
    }
  }

  lemma LastNAppend<T>(a: seq<T>, b: seq<T>)
    ensures LastN(LastN(a, Capacity) + b, Capacity) == LastN(a + b, Capacity)
  {
    if |a| > Capacity {
      var k := |a| - Capacity;
      assert a + b == a[..k] + (a[k..] + b);
      if |b| < Capacity {
        assert (a[k..] + b)[|b|..] == (a + b)[|a| + |b| - Capacity..];
      } else {
        assert (a[k..] + b)[Capacity + |b| - Capacity..] == b[|b| - Capacity..];
        assert (a + b)[|a| + |b| - Capacity..] == b[|b| - Capacity..];
      }
    }
  }

  /** The process-wide store. Its `messages` field is `let messages = []`,
      and `broadcast` the `mqtt_message` events sent to every socket. */
  class MessageStore {
    var messages: seq<StoredMessage>
    var broadcast: seq<StoredMessage>

    predicate Valid()
      reads this
    {
      |messages| <= Capacity
    }

    constructor ()
      ensures messages == [] && broadcast == [] && Valid()
    {
      messages := [];
      broadcast := [];
    }

    /** The `message` callback: store the message and broadcast it. */
    method OnMessage(topic: string, payload: string, qos: int)
      requires Valid()
      modifies this
      ensures Valid()
      ensures messages == Pushed(old(messages), StoredMessage(topic, payload, qos))
      ensures broadcast == old(broadcast) + [StoredMessage(topic, payload, qos)]
    {
      var m := StoredMessage(topic, payload, qos);
      messages := messages + [m];
      if |messages| > Capacity {
        messages := messages[1..];
      }
      broadcast := broadcast + [m];
    }

    /** `GET /messages`: the store as it is, unchanged. */
    method GetMessages() returns (status: int, ms: seq<StoredMessage>)
      ensures status == 200 && ms == messages
    {
      status := 200;
      ms := messages;
    }
  }
}
