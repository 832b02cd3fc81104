# MQTT gateway core, modelled in Dafny

This project models the request-handling core of an Express/Socket.IO
gateway. The gateway connects browsers to MQTT brokers. The core has the
following parts:

- `MqttHandler`. This is the per-broker connection object. It connects to
  `mqtt://<ip>:<port>`, makes at most five attempts and schedules a
  reconnect timer after each failure. It reports its status, messages and
  errors to one Socket.IO socket, and it subscribes and publishes with
  QoS 0.
- The IPv4 test. The handler and both firmware routers use it.
- `POST /subscribe` and `GET /messages`. These keep a module-level store of
  the last 100 MQTT messages received.
- `POST /publish`, and the single-publish route `POST /wifi/user/pub/publish`.
  Both publish through the first client found in the process-wide
  registries `mqttHandlers` and `connectedBrokers`.
- The two firmware routers. They handle the upload filter, the version
  list, download, delete, and the publish of a firmware URL.
- `POST /configurations`.
- The bearer-token middleware and the role middleware.

Each part is modelled as follows:

- **The handler** is modelled twice:
  - `MqttSpec` holds the state as a value (`Handler`), with one transition
    function per method or library callback, and proves properties of
    those transitions. Among them is the invariant `Valid`, which every
    sequence of inputs keeps.
  - `MqttHandlers.MqttHandler` is a class with the same fields. Each of its
    methods is proved to move the fields exactly as the spec transition of
    the same name does.
- **The socket** becomes an append-only log of emissions.
- **Outstanding reconnect timers** become a counter.
- **The MQTT library** is reduced to two booleans: whether the handler holds
  a client, and whether that client reports itself connected.
- **Routes** are pure functions from the request body, plus parameters for
  everything outside the process. Those parameters are:
  - what the broker does;
  - the publish acknowledgement;
  - the file system;
  - the database lookup;
  - the JWT verifier.
- **JavaScript values**: the request body is a `JsValue`. Truthiness,
  `String(...)`, `parseInt`, `trim`, strict equality and destructuring of
  null/undefined are written out in `JsValues`. A parsed object that has
  its own `toString` key cannot be converted to a string: `parseInt`, a
  regular-expression test and a template literal then throw a TypeError.
  `JsValues.Stringable` says which values convert, and each route follows
  that throw to its `catch`, or to no answer when it happens outside the
  `try` or inside a callback.
- **A JavaScript `Map`** is a sequence of key/value pairs in insertion order
  (`Clients.Registry`).

## Model

| member | source | states |
|---|---|---|
| MqttSpec.BrokerUrl | middlewares/mqtt-handler.js:10 | the URL is `mqtt://<brokerIp>:` followed by text that `parseInt` reads back as the configured port, or 1883 when none is configured; for a non-negative port that text is exactly its decimal digits |
| MqttSpec.Emit | middlewares/mqtt-handler.js:104-107 | an event is appended to the log exactly when a socket is attached; nothing else changes |
| MqttSpec.Disconnect | middlewares/mqtt-handler.js:266-278 | without a client nothing changes; with one, status disconnected, counter 0, client dropped, one status event; timers are not cancelled |
| MqttSpec.OnLibConnect | middlewares/mqtt-handler.js:120-128 | the connect callback sets status connected, resets the counter and reports the status |
| MqttSpec.OnLibMessage | middlewares/mqtt-handler.js:130-147 | the message callback forwards topic and payload text and changes nothing else |
| MqttSpec.UpdateSocket | middlewares/mqtt-handler.js:280-283 | only the socket changes |
| MqttSpec.TestConnection | middlewares/mqtt-handler.js:23-62 | an invalid IP resolves false with no probe; otherwise true exactly on the probe's connect; still unresolved after the probe's first event exactly when that event is a close while the handler is connected (a later event of the reconnecting probe can still resolve it) |
| MqttSpec.InitialValid | middlewares/mqtt-handler.js:4-16 | a new handler is in a valid state and not connected |
| MqttSpec.AttemptCases | middlewares/mqtt-handler.js:71-118 | in valid states an attempt does nothing while connected or connecting, reports an invalid IP and opens no client, or else makes one more attempt with a new client; the exhaustion branch at 89-99 never fires |
| MqttSpec.ReconnectCases | middlewares/mqtt-handler.js:177-193 | a timer is scheduled exactly when disconnected with attempts left; with five used it disconnects and reports the failure; otherwise nothing |
| MqttSpec.CloseTwice | middlewares/mqtt-handler.js:160-170 | a second close changes nothing |
| MqttSpec.CloseWhenDisconnected | middlewares/mqtt-handler.js:160-170 | close on a disconnected handler emits and schedules nothing |
| MqttSpec.ErrorKeepsStatus | middlewares/mqtt-handler.js:149-158 | the error callback keeps status, counter and client while attempts remain |
| MqttSpec.DisconnectIdempotent | middlewares/mqtt-handler.js:266-278 | disconnecting twice equals disconnecting once |
| MqttSpec.SubscribeSendsIff | middlewares/mqtt-handler.js:195-223 | a QoS-0 subscribe is sent iff a client exists and reports connected; otherwise one "not connected" error |
| MqttSpec.PublishSendsIff | middlewares/mqtt-handler.js:225-264 | a QoS-0 publish is sent iff a client exists and reports connected; missing and disconnected clients get different errors |
| MqttSpec.IsConnectedMeansUsable | middlewares/mqtt-handler.js:285-287 | a connected handler has counter 0 and can subscribe |
| MqttSpec.ConnectWhileConnected | middlewares/mqtt-handler.js:64-69 | connect while connected restarts at attempt 1 and replaces the client without ending it |
| MqttSpec.TimerAfterDisconnect | middlewares/mqtt-handler.js:266-278 | disconnect leaves pending timers, which reconnect the handler when they fire |
| MqttSpec.FailedCycle | middlewares/mqtt-handler.js:160-193 | a close while connecting schedules a timer whose attempt is one count higher |
| MqttSpec.FifthFailureGivesUp | middlewares/mqtt-handler.js:183-190 | after the fifth failure the handler disconnects, resets the counter, schedules nothing and reports the failure last |
| MqttSpec.StepValid | middlewares/mqtt-handler.js:71-287 | every input keeps the invariant (counter within 0..5, disconnected implies attempts left, connected implies counter 0) |
| MqttSpec.StepExtends | middlewares/mqtt-handler.js:71-287 | every input only appends to the emitted events and sent requests |
| MqttSpec.RunValid | middlewares/mqtt-handler.js:71-287 | any sequence of inputs keeps the invariant |
| MqttSpec.RunExtends | middlewares/mqtt-handler.js:71-287 | over any sequence of inputs the log and the sent requests only grow |
| MqttSpec.NoConnectExhaustion | middlewares/mqtt-handler.js:89-99 | from a fresh handler, whatever the inputs, a disconnected handler always has attempts left |
| MqttHandlers.MqttHandler.constructor | middlewares/mqtt-handler.js:4-16 | the fields start as `MqttSpec.Initial` |
| MqttHandlers.MqttHandler.EmitEvent | middlewares/mqtt-handler.js:104-107 | the fields move as `MqttSpec.Emit` |
| MqttHandlers.MqttHandler.Disconnect | middlewares/mqtt-handler.js:266-278 | the fields move as `MqttSpec.Disconnect` |
| MqttHandlers.MqttHandler.AttemptConnection | middlewares/mqtt-handler.js:71-118 | the fields move as `MqttSpec.Attempt` |
| MqttHandlers.MqttHandler.Connect | middlewares/mqtt-handler.js:64-69 | the fields move as `MqttSpec.Connect`, keeping the invariant |
| MqttHandlers.MqttHandler.HandleReconnect | middlewares/mqtt-handler.js:177-193 | the fields move as `MqttSpec.HandleReconnect` |
| MqttHandlers.MqttHandler.OnLibConnect | middlewares/mqtt-handler.js:120-128 | the fields move as `MqttSpec.OnLibConnect`, keeping the invariant |
| MqttHandlers.MqttHandler.OnLibMessage | middlewares/mqtt-handler.js:130-147 | the fields move as `MqttSpec.OnLibMessage` |
| MqttHandlers.MqttHandler.OnLibError | middlewares/mqtt-handler.js:149-158 | the fields move as `MqttSpec.OnLibError`, keeping the invariant |
| MqttHandlers.MqttHandler.OnLibClose | middlewares/mqtt-handler.js:160-170 | the fields move as `MqttSpec.OnLibClose`, keeping the invariant |
| MqttHandlers.MqttHandler.OnTimer | middlewares/mqtt-handler.js:180-182 | the fields move as `MqttSpec.OnTimer`, keeping the invariant |
| MqttHandlers.MqttHandler.Subscribe | middlewares/mqtt-handler.js:195-223 | the fields move as `MqttSpec.Subscribe` |
| MqttHandlers.MqttHandler.Publish | middlewares/mqtt-handler.js:225-264 | the fields move as `MqttSpec.Publish` |
| MqttHandlers.MqttHandler.OnAck | middlewares/mqtt-handler.js:198-213 | the fields move as `MqttSpec.OnAck`: the request stops pending and its outcome is reported |
| MqttHandlers.MqttHandler.UpdateSocket | middlewares/mqtt-handler.js:280-283 | the fields move as `MqttSpec.UpdateSocket` |
| MqttHandlers.MqttHandler.IsConnected | middlewares/mqtt-handler.js:285-287 | true iff a client exists, reports connected and the status is connected; nothing changes |
| MqttHandlers.MqttHandler.TestConnection | middlewares/mqtt-handler.js:23-62 | the result is `MqttSpec.TestConnection` and the handler's fields are not written |
| Ipv4.HandlerRegexIsDottedQuad | middlewares/mqtt-handler.js:18-21 | the handler's regular expression accepts exactly four dot-separated decimal fields of 1-3 digits, each at most 255 |
| Ipv4.FirmwareRegexIsDottedQuad | routers/firmware-router.js:140-143 | the routers' regular expression accepts exactly the same strings |
| Ipv4.QuadIff | middlewares/mqtt-handler.js:19 | four dot-free fields joined by dots are accepted iff each field is valid |
| Ipv4.AcceptsPrivateAddress | middlewares/mqtt-handler.js:19 | "192.168.1.1" is accepted |
| Ipv4.AcceptsLeadingZeros | middlewares/mqtt-handler.js:19 | "010.0.0.255" is accepted |
| Ipv4.RejectsOctetAbove255 | middlewares/mqtt-handler.js:19 | "256.1.1.1" is refused |
| Ipv4.RejectsHostNames | routers/firmware.js:70-73 | "localhost" and "" are refused |
| JsValues.QosOf | routers/subscribe-router.js:42-46 | the QoS is `parseInt(qosLevel, 10)`, or 0 when that is NaN or 0 |
| JsValues.QosOfNumber | routers/subscribe-router.js:42 | an integer QoS is kept as given, even outside 0..2 |
| JsValues.QosOfMissing | routers/subscribe-router.js:42 | a missing qosLevel gives QoS 0 |
| JsValues.OwnToStringThrows | routers/location.js:36 | an object with its own `toString` key does not convert, nor does an array holding one; an object without that key converts to "[object Object]" |
| JsValues.TrimShape | routers/config-router.js:36 | `trim()` gives a slice of the input with no white space at either end, removing only white space |
| JsValues.TrimEmptyIff | routers/config-router.js:21 | the trimmed string is empty iff the input is all white space |
| Strings.SplitCons | middlewares/auth-middleware.js:11 | splitting `a + sep + b` gives `a` followed by the fields of `b` |
| Strings.IncludesIff | routers/firmware-router.js:156 | `includes` holds iff the needle occurs at some index |
| SubscribeRouter.EntrySubs | routers/subscribe-router.js:36-54 | an entry gives one subscription iff its topicFilter is truthy, with the parsed QoS |
| SubscribeRouter.Subscriptions | routers/subscribe-router.js:36-54 | the loop completes iff every entry can be destructured and its `parseInt` and warning template convert; every issued topic is truthy |
| SubscribeRouter.SubscriptionsAppend | routers/subscribe-router.js:36-54 | entries are subscribed in input order |
| SubscribeRouter.SubscriptionsStop | routers/subscribe-router.js:36-54 | the loop stops at the first entry that cannot be destructured or whose conversion throws, keeping what came before |
| SubscribeRouter.OutOfRangeQosPassesThrough | routers/subscribe-router.js:43-45 | a qosLevel of 5 is passed to the client unchanged |
| SubscribeRouter.UnconvertibleQosStops | routers/subscribe-router.js:42-44 | a qosLevel with its own `toString` stops the loop there, keeping the subscriptions before it |
| SubscribeRouter.SubscribeEach | routers/subscribe-router.js:36-54 | the loop issues exactly the subscriptions of `Subscriptions`, stopping where it stops |
| SubscribeRouter.SubscribeRoute | routers/subscribe-router.js:8-84 | a client is opened only for a readable body with a non-empty inputSets array whose first broker IP converts to text, using that IP and the first entry's credentials; a broker that never answers leaves the request unanswered |
| SubscribeRouter.RejectsBadInputSets | routers/subscribe-router.js:12-16 | a non-array or empty inputSets gives 400 and no client |
| SubscribeRouter.RejectsMissingBrokerIp | routers/subscribe-router.js:18-23 | a first entry without brokerIp gives 400 and no client |
| SubscribeRouter.UnconvertibleBrokerIpIsInternalError | routers/subscribe-router.js:31 | a broker IP with its own `toString` throws in the URL template inside the `try`: 500, no client, nothing subscribed |
| SubscribeRouter.ConnectedSubscribesAll | routers/subscribe-router.js:33-57 | once connected, the loop's subscriptions are issued, and the answer is 200 iff every entry runs without a throw (otherwise none) |
| SubscribeRouter.UnconnectedBrokerSubscribesNothing | routers/subscribe-router.js:31-79 | a refused connection gives 500 with the library's message, a broker that never answers leaves the request pending, and neither subscribes anything |
| SubscribeRouter.Pushed | routers/subscribe-router.js:66-69 | a message is appended, and the oldest is dropped when there are more than 100 |
| SubscribeRouter.PushAllKeepsLast | routers/subscribe-router.js:6 | after any sequence of messages the store holds the last 100 received, oldest first |
| SubscribeRouter.MessageStore.constructor | routers/subscribe-router.js:6 | the store starts empty |
| SubscribeRouter.MessageStore.OnMessage | routers/subscribe-router.js:59-73 | the store becomes `Pushed` of the old one, and the message is broadcast |
| SubscribeRouter.MessageStore.GetMessages | routers/subscribe-router.js:87-89 | 200 with the stored messages, unchanged |
| PublishRoute.EntryPubs | routers/publish-route.js:27-46 | an entry gives one publication iff topic and payload are truthy |
| PublishRoute.Publications | routers/publish-route.js:27-46 | the loop completes iff every entry can be destructured and its warning templates and `parseInt` convert; every issued publication has a topic and a payload |
| PublishRoute.PublicationsAppend | routers/publish-route.js:27-46 | entries are published in input order |
| PublishRoute.PublicationsStop | routers/publish-route.js:27-46 | the loop stops at the first entry that cannot be destructured or whose conversion throws, keeping what came before |
| PublishRoute.PublishEach | routers/publish-route.js:27-46 | the loop issues exactly the publications of `Publications` |
| PublishRoute.PublishRouteResult | routers/publish-route.js:7-53 | publications go only through the first registered client, and only when it is connected |
| PublishRoute.RejectsBadInputSets | routers/publish-route.js:13-16 | a non-array or empty inputSets gives 400 and nothing is published |
| PublishRoute.NoConnectedClient | routers/publish-route.js:19-24 | with usable input, 503 iff the first client is missing or not connected, and then nothing is published |
| PublishRoute.PublishesAll | routers/publish-route.js:27-51 | with a connected client the loop's publications go out in order, and the answer is 200 iff every entry runs without a throw, else 500 |
| PublishRoute.SkipsEntryWithoutPayload | routers/publish-route.js:28-30 | an entry without payload is skipped and its neighbours are published |
| PublishRoute.SkipWarningThrows | routers/publish-route.js:28-30 | a skipped entry whose topic has its own `toString` throws in the warning template and ends the loop, keeping the earlier publications |
| PublishRoute.UnconvertibleQosStops | routers/publish-route.js:33-35 | a qosLevel with its own `toString` ends the loop at that entry, keeping the earlier publications |
| Clients.MapSet | routers/firmware-router.js:178 | `set` keeps an existing key in place and appends a new one |
| Clients.MapSetGet | routers/firmware-router.js:178 | after `set`, `get` gives the new value, other keys are unaffected and the key order is kept |
| Clients.FirstClient | routers/publish-route.js:19 | the first handler wins; otherwise the first broker entry's client; otherwise none |
| Clients.FirstClientIgnoresLater | routers/location.js:24 | entries after the first do not matter |
| Location.LocationRoute | routers/location.js:6-54 | a publication is handed over only for a readable body, with the parsed QoS; without a publication there is always an answer |
| Location.InputCheckedFirst | routers/location.js:14-17 | a missing topic or payload gives 400 before any client is looked at |
| Location.ClientChecks | routers/location.js:24-34 | no client and a disconnected client give two different 503s, and nothing is published |
| Location.SuccessIff | routers/location.js:36-52 | 200 iff input complete, first client connected, qosLevel converts, no publish error and the callback's template converts topic and payload; a publication iff the first three hold |
| Location.PublishFailure | routers/location.js:36-52 | a failed publish gives 500 with the library's message; an unconvertible qosLevel gives the catch's 500; a topic the callback cannot log gives no answer |
| Location.UnconvertibleQosIsInternalError | routers/location.js:36-52 | a qosLevel with its own `toString` makes `parseInt` throw: 500 "Internal server error" and nothing published |
| FirmwareFiles.LastIndex | routers/firmware-router.js:27 | the index of the last occurrence of a character, or none when absent |
| FirmwareFiles.ExtName | routers/firmware-router.js:27 | the extension is empty or starts with its only dot and holds no slash |
| FirmwareFiles.BinNameIff | routers/firmware-router.js:26-33 | a file name passes the filter iff it has more than four characters and ends in ".bin" in any letter case |
| FirmwareFiles.LeadingDotNames | routers/firmware-router.js:27 | ".bin" is refused and "..bin" accepted |
| FirmwareFiles.CaseAndLastExtension | routers/firmware-router.js:27-28 | "FW.BIN" is accepted and "fw.bin.txt" refused |
| FirmwareFiles.UploadRoute | routers/firmware-router.js:24-45 | no file gives 400, a non-.bin file is rejected by the filter, a .bin file gives 200 |
| FirmwareFiles.VersionUrls | routers/firmware-router.js:54 | one URL per file, in listing order |
| FirmwareFiles.VersionsRoute | routers/firmware-router.js:48-61 | 200 with exactly one version URL per listed file, in listing order, or 500 with the read error (the same route serves routers/firmware.js:48-59 with host localhost) |
| FirmwareFiles.FirmwareUrlIff | routers/firmware-router.js:146-149 | the URL test accepts exactly `http://<host>:<digits>/api/updates/<name>.bin` with no line terminator in the name |
| FirmwareFiles.VersionUrlAccepted | routers/firmware-router.js:146 | a version URL for a lower-case ".bin" file passes the URL test |
| FirmwareFiles.UpperCaseBinRefused | routers/firmware-router.js:146 | "FW.BIN" passes the upload filter but its version URL fails the URL test |
| FirmwareRouter.ListedBinUrlsAccepted | routers/firmware-router.js:54 | every listed lower-case ".bin" file yields a URL the publish route accepts |
| FirmwareRouter.Download | routers/firmware-router.js:64-100 | 404 when missing, then 400 for a non-.bin name, then 500 with Node's "Invalid character in header content" message when the name has a character `setHeader` refuses (outside tab, 0x20-0x7E and 0x80-0xFF); streamed as an attachment iff it exists, is .bin, is header-safe and reading succeeds |
| FirmwareRouter.UnsafeNamesRefused | routers/firmware-router.js:83-99 | an existing, readable "ā.bin" or "a\n.bin" gets the 500 from the catch block instead of the file |
| FirmwareRouter.Delete | routers/firmware-router.js:103-129 | 404 when missing, then 400 for a non-.bin name; 200 iff deleted, 500 iff unlink fails |
| FirmwareRouter.ExistenceCheckedFirst | routers/firmware-router.js:69-80 | a missing file is 404 whatever its name; only an existing .bin file is streamed or deleted |
| FirmwareRouter.FirstReusable | routers/firmware-router.js:154-160 | the first entry whose URL contains the IP and whose client is not reconnecting; none before it qualifies |
| FirmwareRouter.FindReusable | routers/firmware-router.js:154-160 | the loop finds the first reusable client, never a reconnecting one, and none iff no entry qualifies |
| FirmwareRouter.FirstReusableWins | routers/firmware-router.js:154-158 | entries after the first reusable one do not matter |
| FirmwareRouter.Announce | routers/firmware-router.js:193-210 | a QoS-0 publish through the client; answered iff the callback's templates convert the topic, then 200 iff no publish error |
| FirmwareRouter.Publish | routers/firmware-router.js:132-211 | a 400 changes nothing; a publication happens only for an admitted request, with QoS 0, through a client that is neither ended nor reconnecting |
| FirmwareRouter.ChecksInOrder | routers/firmware-router.js:135-149 | missing fields, then a bad IP, then a bad URL, each 400 before the registry is searched; an IP or message the regular expression cannot convert leaves the request unanswered |
| FirmwareRouter.ReusesFirstClient | routers/firmware-router.js:154-163 | no new client is opened iff the found client exists and has not ended; then the registry is unchanged |
| FirmwareRouter.RegistersFreshClient | routers/firmware-router.js:162-190 | a fresh client that connects is registered under its id with `mqtt://<ip>:1883`; other entries and the key order are kept |
| FirmwareRouter.FailedConnectionRegistersNothing | routers/firmware-router.js:181-185 | a failed or silent connection registers and publishes nothing; a failure gives 500 with its message |
| FirmwareRouter.SuccessIff | routers/firmware-router.js:132-211 | 200 iff admitted (fields, IP and URL, all convertible), a client is at hand (reused, or fresh and connected), the publish succeeds and the topic converts in the callback's log |
| Firmware.VersionsNameLocalhost | routers/firmware.js:52 | each listed URL is `http://localhost:5000/api/updates/<name>` |
| Firmware.Publish | routers/firmware.js:62-106 | a 400 opens nothing; a publication has QoS 0 and needs a connection that came up |
| Firmware.ChecksInOrder | routers/firmware.js:65-73 | missing fields, then a bad IP, each 400 before any connection; an IP the regular expression cannot convert leaves the request unanswered |
| Firmware.RefusesHostName | routers/firmware.js:70-73 | a broker IP of "localhost" gives 400 |
| Firmware.SuccessIff | routers/firmware.js:62-106 | 200 iff the fields are present, the IP converts and is valid, the connection comes up, the publish succeeds and the success templates convert topic and message |
| Firmware.MessageNotValidated | routers/firmware.js:79-94 | the message "hello" is published here and refused by the other router's URL check |
| ConfigRouter.Validate | routers/config-router.js:12-23 | each failed check gives 400 |
| ConfigRouter.SaveConfiguration | routers/config-router.js:8-47 | something is saved iff the answer is "Configuration saved successfully"; the saved topic is the trimmed usable topic |
| ConfigRouter.ChecksInOrder | routers/config-router.js:12-23 | the checks run in source order and the first failure decides |
| ConfigRouter.LookupOnlyAfterChecks | routers/config-router.js:26-29 | a failed check is answered whatever the lookup and the save would do |
| ConfigRouter.BlankTopicRefused | routers/config-router.js:21 | a topic is usable iff it is not all white space |
| ConfigRouter.SavedIff | routers/config-router.js:26-40 | saved iff the checks pass, the broker is found and the save succeeds; the fields are stored as given, and the topic trimmed and non-empty |
| AuthMiddleware.TokenOf | middlewares/auth-middleware.js:11 | the token holds no space |
| AuthMiddleware.TokenIsNextWord | middlewares/auth-middleware.js:11 | the token is the word after "Bearer ", up to the next space |
| AuthMiddleware.DoubleSpaceGivesEmptyToken | middlewares/auth-middleware.js:11 | "Bearer  x" carries the empty token |
| AuthMiddleware.Authenticate | middlewares/auth-middleware.js:4-22 | `next()` is called only for a header that starts with "Bearer ", and with an id and role that convert to text |
| AuthMiddleware.NoTokenIff | middlewares/auth-middleware.js:5-9 | 401 "No token provided" iff the header is missing or does not start with "Bearer " |
| AuthMiddleware.LowerCaseSchemeRefused | middlewares/auth-middleware.js:6 | the scheme test is case-sensitive |
| AuthMiddleware.NextIff | middlewares/auth-middleware.js:12-21 | `next()` iff the verifier accepts the token with a readable payload whose `_id` and `role` the log template converts, with that `_id` and `role`; otherwise 401 "Invalid token" |
| AuthMiddleware.UnloggableRoleRefused | middlewares/auth-middleware.js:14-20 | a verified payload whose role has its own `toString` gets 401 "Invalid token" |
| AuthMiddleware.TrailingTextIgnored | middlewares/auth-middleware.js:11 | text after the token's next space does not change the outcome |
| RestrictToAdmin.Restrict | middlewares/restrictToadmin.js:1-19 | every refusal is a 403 |
| RestrictToAdmin.ArrayIncludesIff | middlewares/restrictToadmin.js:9 | `includes` holds iff some element is SameValueZero-equal |
| RestrictToAdmin.SomeIncludedIff | middlewares/restrictToadmin.js:9 | the permission test holds iff some allowed role equals some user role |
| RestrictToAdmin.RoleNotFoundIff | middlewares/restrictToadmin.js:3-6 | "Role not found" iff the role is falsy |
| RestrictToAdmin.GrantIff | middlewares/restrictToadmin.js:8-17 | granted iff the role is truthy and some allowed role is among the user's; otherwise a truthy role is refused as insufficient |
| RestrictToAdmin.ScalarRoleIsSingleton | middlewares/restrictToadmin.js:8 | a single role behaves as a one-element list |
| RestrictToAdmin.NoAllowedRolesNeverGrants | middlewares/restrictToadmin.js:9 | with no allowed roles nobody is let through |
| RestrictToAdmin.EmptyRoleListInsufficient | middlewares/restrictToadmin.js:3-14 | an empty role list is truthy and refused as insufficient |
| RestrictToAdmin.AdminAllowed | middlewares/restrictToadmin.js:9-17 | an "admin" user passes a check that allows "admin" |

## Left out

- The MQTT library's internals: the network, MQTT packets, keepalive and
  the library's own reconnect period. A client is reduced to the flags the
  code tests. What a broker does becomes a parameter: `Clients.Connection`
  (connects, fails, or never answers), the first probe event, and the
  acknowledgement error.
- Timers and the clock. A pending reconnect timer is a counter, and when
  it fires is up to the caller (`TimerFires` in `MqttSpec.Input`). The
  5-second delay and the 5-second probe timeout are not modelled.
- Old clients. A client replaced by `attemptConnection` without being ended
  keeps its callbacks bound to the handler. The model counts such clients
  (`overwritten`), and a `current` flag says whether a callback comes from
  the live client. An old client's message, error and ack callbacks are not
  told apart from the live client's.
- MqttSpec.Run: an input that cannot occur in the state it meets is
  skipped. Such inputs are an ack for a request that is not pending, a
  timer with none pending, and a connect/close callback from the current
  client when there is none.
- Socket.IO itself. Emissions go to a log, one socket per handler. The
  broadcast of `mqtt_message` by the subscribe route's message handler is
  a sequence in `MessageStore`.
- JSON parsing of message payloads. The payload is forwarded as text
  either way, so the parse does not affect any emitted event.
- Console logging. What is printed is not modelled. What a log template
  literal converts is, because a value with its own `toString` key makes
  the template throw: location.js:38 and 44, publish-route.js:29, 35 and
  41, subscribe-router.js:44, firmware.js:90, firmware-router.js:197 and
  200, auth-middleware.js:16. A throw inside a publish callback before the
  answer (location.js:44/47, firmware.js:90, firmware-router.js:197/200)
  is modelled as no answer. The MQTT library calls that callback later,
  not from within `publish`; were it called synchronously, the throw would
  reach the route's `catch` instead.
- The callback logs that run after the answer (publish-route.js:41/43,
  subscribe-router.js:49/51) can throw in the same way, as an uncaught
  exception that ends the process. That is not modelled; the answer
  already sent is.
- Exception texts raised by the JavaScript engine. They appear as
  `ThrownBody` / `DetailBody(_, None)` without the message. A body that
  cannot be destructured is a `JsValue` that is not `Readable`.
- JsValues.ToStr and JsValues.QosOf are total: for a value that is not
  `Stringable` they return a string or a QoS where the engine throws. Every
  route tests `Stringable` before it uses them, so no modelled answer rests
  on that value.
- Floating-point numbers. `JsValue` numbers are integers, plus `NaN`.
  `parseInt` of a non-integral number and `String(...)` of a float are not
  modelled. `ToStr` writes every digit of an integer, while JavaScript
  writes a magnitude of 1e21 or more in exponent form (and `parseInt` then
  reads only its leading digits) and holds integers above 2^53 only
  approximately; for such numbers `ToStr` and `QosOf` differ from the
  engine.
- Unicode case folding. `toLowerCase` on file extensions folds ASCII
  letters only.
- The file system, multer and Express. Existence, directory listings,
  stream failures and unlink errors are parameters. `path.join`
  normalisation of a download name is not modelled; the name is used as
  given.
- MongoDB. `Broker.findOne` and `save` are parameters (`Lookup`, and the
  save error).
- JWT cryptography. `jwt.verify` is a function parameter that gives the
  decoded payload or nothing.
- A `next()` that throws inside the bearer middleware's `try`. It would be
  answered "Invalid token"; the model treats `next()` as returning.
- Random client ids. The id of a fresh firmware publish client is a
  parameter (`newId`).
- Firmware.Publish: the connection in routers/firmware.js stays open and
  its later `error`/`connect` events could try to answer again; only the
  first answer is modelled.
- SubscribeRouter.SubscribeRoute: an entry of `inputSets` that cannot be
  destructured, or whose `parseInt` or warning template throws, stops the
  loop with a TypeError. The loop runs in the
  client's `connect` callback, outside the route's `try`, so this is an
  uncaught exception of the whole process. The model only records that no
  answer is sent and what was subscribed before it.
- FirmwareRouter.Announce: a reused client that is offline but neither
  ended nor reconnecting only queues the QoS-0 publish, so its callback,
  and the answer, can wait indefinitely. The model always answers from
  the acknowledgement outcome it is given.
- SubscribeRouter.SubscribeRoute: the subscribe client stays open after
  the answer, and its later events answer the same request again. An
  `error` (a reset connection, say) ends the client and sends a 500, and a
  `connect` after a reconnect runs the loop again and sends another 200.
  That second `res.json` throws ERR_HTTP_HEADERS_SENT inside an event
  listener. server.js installs no handler for uncaught exceptions, so the
  throw ends the whole process. The model keeps only the first answer and
  does not model the crash.
- FirmwareRouter.Publish: an unreadable body is destructured outside the
  `try` and leaves the request unanswered (`None`), as does a `brokerIp`
  or `message` that a regular-expression test cannot convert. The same
  holds for `Firmware.Publish` and its `brokerIp`. Express's own error page is not modelled.
- server.js is not part of this model beyond the two registries it creates
  (server.js:16-17). Client registration on socket events, the user-email
  cache and shutdown are left out.
- The other routers, the models and the React firmware page are not part
  of this model.
