# Request forwarder: hub, ingress and forwarding client

A Dafny model of a small webhook relay written in Go. The **broker** accepts
any HTTP call on `/<service>` and turns it into a `WebhookEvent`. The event is
broadcast as JSON over websocket to every connection subscribed to channel
`<service>`. The **forwarding client** subscribes to one channel. For each
event it receives, it rebuilds the HTTP request and sends it on to a local
address.

The model covers:

- `wrappers.dfy`: `Option` and `Result`.
- `order.dfy` (`StringOrder`): byte-wise lexicographic order on strings, and
  the sorted key list `url.Values.Encode` walks.
- `base64.dfy` (`Base64`): the standard alphabet with padding (section 4 of
  RFC 4648). `encoding/json` uses it for the `[]byte` payload. Decoding is
  Go's default, non-strict mode.
- `common.dfy` (`Common`): the `WebhookEvent` record and its JSON wire form.
  The unexported `channel` field has no part in the wire form.
- `hub.dfy` (`Hub`): the broker's hub loop, as a class.
  - Its state is the registry `channels`, which maps a channel to the
    subscribing connections and each connection's guard.
  - A `stopped` flag is set once the loop has returned.
  - Spawned deliveries wait in `pending`.
  - `unregisterQueue` holds the connections that failed deliveries hand back.
  - `sent` logs the frames written and `closed` the connections closed.
  - A ghost map `owner` records the connection each guard was allocated for.
    `Valid()` holds when every guard in the registry and in `pending` belongs
    to its own connection. Each `Register` allocates a new guard, so no two
    connections share one.
  - A delivery is its own method call. It takes whether the websocket write
    succeeded as an input. Deliveries may run in any order.
- `ingress.dfy` (`Ingress`): building the event from an inbound call.
- `urls.dfy` (`Urls`):
  - `URL.String` for the URLs the client uses.
  - `url.Values.Encode`.
  - The matching `url.ParseQuery`, used as the reader's side of the query
    round trip.
- `client.dfy` (`Client`): the forwarding client's `SendRequest` as a method of
  a class that holds its flags and the mutable global `forwardToUrl`. Also:
  - the header loop;
  - the status classification;
  - the response-log file name;
  - the websocket URL.

Two behaviours of the code are modelled as written, and a plain description
of the system would put them differently:

- A broadcast to a channel that nobody has registered does not just drop the
  event: `runHub` returns, and the hub serves no further command
  (main.go:41-44). A marshal error does the same (main.go:47-50). After either
  one, `Hub.Hub.Broadcast` leaves the hub `stopped`.
- `LogResponseToFile` is called for every response, not only for error
  responses (client.go:64). With `-log` on, every forwarded response has a log
  file name.

## Model

| member | source | states |
|---|---|---|
| StringOrder.SortedKeys | client.go:41 | the keys that `Encode` walks: exactly the map's keys, in strictly increasing lexicographic order, each once |
| Base64.Encode | common.go:6 | the payload's JSON text is 4 characters per 3 bytes, padded up to a multiple of 4, using only alphabet characters and `=` |
| Base64.Decode | common.go:6 | a text whose length is not a multiple of 4 is illegal base64 data |
| Base64.RoundTrip | common.go:6 | decoding the encoding of any byte string gives back that byte string |
| Common.Marshal | main.go:45 | the wire form carries the event's method, query and headers unchanged; it has a payload exactly when the event has one, and that text decodes back to the payload bytes |
| Common.Unmarshal | client.go:30-34 | decoding into a fresh event: the channel is always nil; a frame that is not an event object is malformed JSON; an event object decodes exactly when it has no payload text or its text is legal base64, and is otherwise rejected as illegal base64; a decoded event has the frame's method, query and headers, and its payload is nil for a nil payload and otherwise the decoded bytes |
| Common.ChannelNotSerialised | common.go:4-8 | the wire form does not depend on the routing channel |
| Common.RoundTrip | common.go:3-9 | for strings that are valid Unicode, the client decodes what the broker encodes to the same event with the channel dropped: method, payload (nil or any bytes), query and headers all survive |
| Common.MarshalInjective | common.go:5-8 | two events with the same wire form differ at most in their channel |
| Hub.Registered | main.go:33-38 | registering adds the channel key if it was missing; afterwards the connection is a member with the new guard; no other membership is added or removed; every other guard stays as it was |
| Hub.Unregistered | main.go:74-76 | deleting a connection keeps every channel key, including emptied ones; the connection leaves every channel; every other membership and guard stays |
| Hub.UnregisterIdempotent | main.go:74-75 | deleting a connection twice gives the same registry as deleting it once |
| Hub.ReRegisterKeepsMembers | main.go:38 | registering a connection that is already a member leaves the channel keys and every channel's members unchanged |
| Hub.RegisterThenUnregister | main.go:32-38 | after registering and then unregistering a connection, it belongs to no channel, while the channel entry created for it stays |
| Hub.FanOutSize | main.go:53-70 | a fan-out that meets the broadcast's guarantee spawns exactly as many deliveries as the channel has subscribers |
| Hub.Guard.constructor | main.go:38 | a new `client` guard is not closing |
| Hub.Hub.constructor | main.go:23-26 | the hub starts valid, with an empty registry, running, with nothing pending, queued, sent or closed |
| Hub.RegisterKeepsOwned | main.go:38 | giving a new connection a guard that no registered connection and no pending delivery holds keeps every guard owned by exactly one connection |
| Hub.Hub.Register | main.go:32-38 | on a running hub, the registry becomes `Registered` with a freshly allocated guard that is not closing, and that guard is owned by the new connection alone; on a stopped hub, nothing changes; apart from the ghost `owner`, only `channels` changes |
| Hub.Hub.Broadcast | main.go:40-70 | the registry is never changed. An unknown channel or a failed encoding stops the hub, and no delivery is spawned. Otherwise exactly one delivery is appended per current subscriber, with that subscriber's guard and the same encoded event, and the earlier pending deliveries are kept |
| Hub.Hub.Unregister | main.go:72-76 | on a running hub, the registry becomes `Unregistered`; a stopped hub keeps it; no other field changes |
| Hub.Hub.ServeQueuedUnregister | main.go:67-76 | a running hub takes the oldest connection a failed delivery sent and unregisters it; a stopped hub receives nothing |
| Hub.Hub.Deliver | main.go:54-69 | the delivery leaves the pending set. A closing guard skips the write, and nothing else changes. A successful write logs the frame and leaves the guard open. A failed write sets `isClosing`, closes that connection and queues exactly that connection for unregister. Registry and `stopped` are untouched, and the guard of every other connection, registered or still waiting for a delivery, keeps its `isClosing` |
| Ingress.BuildEvent | main.go:89-107 | the event is routed to the service and carries the call's method and headers; for a POST its payload is the call's body, nil when no body was read, and for any other method it is nil; every query parameter becomes a one-element list, and there are no other keys |
| Ingress.IngressThroughWire | main.go:96-107 | for strings that are valid Unicode, what the client decodes from an ingress event keeps the call's method and headers, the singleton query, and for a POST the call's body, nil or not; any other call arrives without a payload |
| Urls.UrlString | client.go:42 | the URL text starts with the scheme and `:` when there is a scheme, and ends with `#` and the fragment when there is one, or else with `?` and the raw query when there is a query or a forced `?` |
| Urls.UrlStringQuery | client.go:41-42 | with no fragment, the URL text is its query-less text followed by `?` and the new raw query (nothing when that query is empty and no `?` is forced); the base's old query leaves no trace |
| Urls.KeyPairs | client.go:41 | one `key=value` pair per value of a key, in the order of the values |
| Urls.Pairs | client.go:41 | the pair list is empty exactly when none of the keys has a value |
| Urls.EncodeQuery | client.go:41 | the encoded query is empty exactly when no key has a value |
| Urls.EncodeTwoValues | client.go:41 | `{a: [1, 2]}` encodes as `a=1&a=2` |
| Urls.QueryRoundTrip | client.go:41 | with an escaping that its unescape undoes and that never yields `&` or `=`, parsing the encoded query gives back every key that has values, with all its values in order |
| Client.RequestBody | client.go:36-39 | there is a body exactly when the method is `POST` and the payload is not nil, and then it is the payload verbatim |
| Client.NewRequest | client.go:45-49 | a request is built exactly when the method is empty (it then means GET) or is a valid token; the request has the given URL and body and no headers |
| Client.ApplyHeaders | client.go:51-53 | after the loop, the headers are the initial ones overwritten by every event header under its canonical name; the value under a name comes from an event header with that canonical name; untouched names keep their values |
| Client.AppliedExactly | client.go:51-53 | when no two event header names share a canonical form, every event header ends up with exactly its own value, overwriting any earlier one |
| Client.Classify | client.go:58-62 | a status of 400 or more is an error response, anything lower a success; the code is kept |
| Client.ReplaceSpaces | client.go:75 | every space of the timestamp becomes `_`, and every other character stays in place |
| Client.LogFileName | client.go:75 | the log file name starts with the method, `-`, the service and `-`, ends with `.txt`, and is six characters longer than the three parts together |
| Client.LogFileNameNoSpaces | client.go:75 | the log file name has no spaces when the method and the service have none |
| Client.LogFileNameTimestamp | client.go:75 | between the `method-service-` prefix and the `.txt` suffix, the log file name holds the timestamp with spaces written as `_` |
| Client.WebSocketUrl | client.go:99-104 | the dialled URL has scheme `ws` (`wss` with TLS), the broker address as host and path `ws/<service>`, with no query or fragment |
| Client.WebSocketUrlText | client.go:104-105 | when the address and the service need no escaping, its text is `ws://<address>/ws/<service>` (or `wss://…`) |
| Client.EmptyQueryClearsUrl | client.go:41-42 | unless the base URL forces a `?`, an event with no query values gives the forwarding URL no query at all, whatever query the base URL had, and the fragment is kept |
| Client.ForwardGetWithQuery | client.go:36-42 | a GET with `{a: [1, 2]}` forwarded to `http://localhost:8000` has no body and goes to `http://localhost:8000?a=1&a=2` |
| Client.ForwardingClient.constructor | client.go:20-25 | the client holds its flags and the parsed forwarding URL |
| Client.ForwardingClient.DialUrl | client.go:99-104 | the URL dialled at start-up points at the broker's `ws/<service>`, with `wss` exactly when TLS is on |
| Client.ForwardingClient.SendRequest | client.go:27-66 | a frame that does not decode is dropped and changes nothing. Otherwise the global URL's raw query is replaced by the event's encoded query. No request is made when the method is invalid. Otherwise the request has the effective method, the new URL, the POST body and the event's headers applied. A transport error is reported as such. A response is classified by its status and, with `-log`, saved under the log file name |

## Left out

- Goroutines and the per-client `sync.Mutex` (main.go:54-56). Each delivery is
  one atomic method call, and calls may come in any order.
- The hub does block: a failed delivery's `unregister <- connection` waits for
  the hub, and a stopped hub makes every later `broadcast <-` of the ingress
  handler wait forever. The model keeps the queue and the `stopped` flag but
  does not model blocking.
- The data race on the global `forwardToUrl` between concurrent `SendRequest`
  calls (client.go:41, client.go:126). Calls are modelled one at a time.
- Fiber routing, the response status, the `hub.challenge` echo
  (main.go:85-87, main.go:109-113), and the websocket upgrade and read loops
  (main.go:116-156). These are I/O plumbing. Register and Unregister are
  modelled as the commands those loops send.
- The client's `main`: flag parsing, `url.Parse` of `-forward`, dialling,
  signal handling and the close handshake with its one-second timeout
  (client.go:86-154). `url.Parse` is library behaviour, and the rest is I/O.
  The parsed URL is a constructor input.
- `http.DefaultClient.Do`, `io.ReadAll`, `os.WriteFile` and `time.Now` are I/O.
  The response status (or a transport error) and the timestamp text are inputs.
  Log lines are dropped.
- Client.ForwardingClient.SendRequest: `logFile` is the name `LogResponseToFile` computes. A failure of `io.ReadAll` or `os.WriteFile` is not modelled.
- `url.QueryEscape` and `textproto.CanonicalMIMEHeaderKey` are library
  functions. Both are function-valued fields of the client.
- Go map iteration order, for the header loop and the fan-out, is
  unspecified and chosen non-deterministically.
- Hub.Hub.Broadcast: whether `json.Marshal` fails is the input `marshalOk`, not derived from the event. For these field types it never fails in Go, but the error branch (main.go:47-50) stays modelled.
- Hub.Hub.Broadcast: a nil `channel` pointer would panic in the hub. The model requires the channel to be set, which every ingress event satisfies.
- Common.Unmarshal: JSON text is not modelled. A frame is either an object with the four exported fields or not an event. Missing fields, a `null` document, duplicate keys and type mismatches are not distinguished.
- Base64.Decode: Go's decoder skips `\r` and `\n` inside the text. The model does not, and the encoder never writes them.
- Client.NewRequest: the model does not reparse the URL text inside `http.NewRequest`, so the URL-parse error of `http.NewRequest` is not modelled.
- Urls.UrlString: covers only URLs without an opaque part, user information or `OmitHost` (set by `url.Parse` for `http:/x`, which Go prints as `http:/x` while the nearest modelled URL prints as `http:///x`). It does not percent-escape the path, the host or the fragment as `URL.EscapedPath` and `URL.String` do; the texts are taken as already escaped. It also leaves out the `./` prefix Go adds to a relative path whose first segment contains `:`.
- Urls.ParseQuery: it is the reader of the query round trip and skips empty segments. It does not model `;` rejection or malformed escapes.
- Client.WebSocketUrlText: is stated only for an address of letters, digits and `-._~:[]` and a service of letters, digits and `-_.~$&+,/:;=@`. For any other character, Go's `URL.String` percent-escapes it (a space in the service becomes `%20`), and the model does not.
- Common.RoundTrip: strings are modelled as sequences of Unicode characters. `json.Marshal` replaces invalid UTF-8 in a Go string, map keys included, with U+FFFD, so such bytes do not survive the wire in Go. The model does not capture this.
- Ingress.IngressThroughWire: the same holds for method, query and header strings taken from an inbound call. Invalid UTF-8 in them reaches the client as U+FFFD. The model assumes valid Unicode.
- Nil and empty maps are the same value. Every consumer treats them alike, and both encode as an empty query.
