/** The two process-wide registries the routes read (server.js:16-17):
    `mqttHandlers`, from a client id to an MQTT client, and `connectedBrokers`,
    from a client id to `{ client, url }`. A JavaScript `Map` iterates in
    insertion order, so each is a sequence of key/value pairs. A client is
    reduced to the library flags the routes test. */
module Clients {
  import opened JsValues

  datatype Client = Client(id: string, connected: bool, reconnecting: bool, ended: bool)

  /** How the connection of a client opened for one request ends: its
      `connect` event, its `error` event, or neither (a broker that never
      answers); in the last case the request gets no answer. */
  datatype Connection = Connects | ConnectFails(message: string) | NoAnswer

  /** One `client.publish(topic, payload, { qos })` call. */
  datatype Publication = Publication(topic: JsValue, payload: JsValue, qos: int)

  /** A `connectedBrokers` value; `url` is `None` when it is missing. */
  datatype BrokerEntry = BrokerEntry(client: Option<Client>, url: Option<string>)

  /** A `Map` in insertion order. */
  type Registry<V> = seq<(string, V)>

  predicate KeysUnique<V>(m: Registry<V>) {
    forall i, j :: 0 <= i < j < |m| ==> m[i].0 != m[j].0
  }

  function Keys<V>(m: Registry<V>): (ks: seq<string>)
    ensures |ks| == |m| && forall i :: 0 <= i < |m| ==> ks[i] == m[i].0
  {
    seq(|m|, i requires 0 <= i < |m| => m[i].0)
  }

  /** `map.set(key, value)`: an existing key keeps its place and takes the new
      value; a new key goes at the end. */
  function MapSet<V>(m: Registry<V>, key: string, value: V): (r: Registry<V>)
    ensures key in Keys(m) ==> |r| == |m|
    ensures key !in Keys(m) ==> r == m + [(key, value)]
    decreases |m|
  {
    if |m| == 0 then [(key, value)]
    else if m[0].0 == key then [(key, value)] + m[1..]
    else
      assert key in Keys(m) <==> key in Keys(m[1..]) by {
        if key in Keys(m) {
          var i :| 0 <= i < |m| && Keys(m)[i] == key;
          assert Keys(m[1..])[i - 1] == key;
        }
        if key in Keys(m[1..]) {
          var i :| 0 <= i < |m[1..]| && Keys(m[1..])[i] == key;
          assert Keys(m)[i + 1] == key;
        }
      }
      [m[0]] + MapSet(m[1..], key, value)
  }

  /** `map.get(key)`. */
  function MapGet<V>(m: Registry<V>, key: string): Option<V>
    decreases |m|
  {
    if |m| == 0 then None else if m[0].0 == key then Some(m[0].1) else MapGet(m[1..], key)
  }

  /** After `set`, `get` of that key gives the new value, every other key is
      unaffected, and the order of the keys already present is kept. */
  lemma {:induction false} MapSetGet<V>(m: Registry<V>, key: string, value: V, other: string)
    ensures MapGet(MapSet(m, key, value), key) == Some(value)
    ensures other != key ==> MapGet(MapSet(m, key, value), other) == MapGet(m, other)
    ensures Keys(MapSet(m, key, value))[..|m|] == Keys(m)
    decreases |m|
  {
    if |m| > 0 && m[0].0 != key {
      MapSetGet(m[1..], key, value, other);
      var r := MapSet(m, key, value);
      assert r[1..] == MapSet(m[1..], key, value);
      forall i | 0 <= i < |m| ensures Keys(r)[..|m|][i] == Keys(m)[i] {
        if i > 0 {
          assert Keys(r)[i] == r[i].0 == r[1..][i - 1].0 == Keys(MapSet(m[1..], key, value))[..|m| - 1][i - 1];
        }
      }
    } else if |m| > 0 {
      var r := MapSet(m, key, value);
      forall i | 0 <= i < |m| ensures Keys(r)[..|m|][i] == Keys(m)[i] {
        if i > 0 { assert r[i] == m[i]; }
      }
    }
  }

  function Values<V>(m: Registry<V>): (vs: seq<V>)
    ensures |vs| == |m| && forall i :: 0 <= i < |m| ==> vs[i] == m[i].1
  {
    seq(|m|, i requires 0 <= i < |m| => m[i].1)
  }

  /** `Array.from(mqttHandlers.values())[0] || Array.from(connectedBrokers.values())[0]?.client`:
      a registered client is an object, so the first handler always wins. */
  function FirstClient(handlers: Registry<Client>, brokers: Registry<BrokerEntry>): (c: Option<Client>)
    ensures |handlers| > 0 ==> c == Some(handlers[0].1)
    ensures |handlers| == 0 && |brokers| > 0 ==> c == brokers[0].1.client
    ensures |handlers| == 0 && |brokers| == 0 ==> c == None
  {
    if |handlers| > 0 then Some(Values(handlers)[0])
    else if |brokers| > 0 then Values(brokers)[0].client
    else None
  }

  /** Only the first entry of each registry matters. */
  lemma FirstClientIgnoresLater(handlers: Registry<Client>, brokers: Registry<BrokerEntry>,
                                moreHandlers: Registry<Client>, moreBrokers: Registry<BrokerEntry>)
    requires |handlers| > 0 || (|brokers| > 0 && |moreHandlers| == 0)
    ensures FirstClient(handlers + moreHandlers, brokers + moreBrokers) == FirstClient(handlers, brokers)
  {
    if |handlers| > 0 {
      assert (handlers + moreHandlers)[0] == handlers[0];
    } else {
      assert handlers + moreHandlers == [];
      assert (brokers + moreBrokers)[0] == brokers[0];
    }
  }
}
