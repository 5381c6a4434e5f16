/**
 * The shared event record and its JSON wire form (common.go:3-9).
 *
 * JSON text itself is not modelled: a text frame is either a JSON object with
 * the event's four exported fields (`WireEvent`) or something `json.Unmarshal`
 * rejects. A nil map and an empty map are the same value here, because every
 * consumer treats them alike (ranging over either does nothing, and both encode
 * as an empty query string).
 */
module Common {
  import opened Wrappers
  import Base64

  type byte = Base64.byte

  /**
   * An inbound call. `channel` is the unexported `*string` routing field: it is
   * set at ingress and is never part of the wire form.
   */
  datatype WebhookEvent = WebhookEvent(
    channel: Option<string>,
    httpMethod: string,
    payload: Option<seq<byte>>,
    query: map<string, seq<string>>,
    headers: map<string, string>)

  /**
   * The JSON object `json.Marshal` writes for an event: `method`, `payload` as a
   * base64 JSON string or `null` for a nil slice, `query` and `headers`.
   */
  datatype WireEvent = WireEvent(
    httpMethod: string,
    payload: Option<string>,
    query: map<string, seq<string>>,
    headers: map<string, string>)

  /** A text frame as the client reads it from its connection. */
  datatype Frame = JsonObject(doc: WireEvent) | NotAnEvent

  datatype DecodeError = MalformedJson | IllegalBase64

  /** `json.Marshal` of an event: the projection onto the exported fields. */
  function Marshal(e: WebhookEvent): (w: WireEvent)
    ensures w.httpMethod == e.httpMethod && w.query == e.query && w.headers == e.headers
    ensures w.payload.None? <==> e.payload.None?
    ensures w.payload.Some? ==> Base64.Decode(w.payload.value) == e.payload
  {
    WireEvent(
      e.httpMethod,
      match e.payload
        case None => None
        case Some(b) => Base64.RoundTrip(b); Some(Base64.Encode(b)),
      e.query,
      e.headers)
  }

  /** The JSON text frame the broker writes for an event. */
  function MarshalFrame(e: WebhookEvent): (f: Frame)
    ensures f.JsonObject?
  {
    JsonObject(Marshal(e))
  }

  /**
   * `json.Unmarshal` into a fresh `WebhookEvent{}`: the channel stays nil, and
   * an event object decodes unless its payload text is illegal base64.
   */
  function Unmarshal(f: Frame): (r: Result<WebhookEvent, DecodeError>)
    ensures r.Ok? ==> r.value.channel == None
    ensures f.NotAnEvent? ==> r == Err(MalformedJson)
    ensures f.JsonObject? ==> (r.Ok? <==> (f.doc.payload.None? || Base64.Decode(f.doc.payload.value).Some?))
    ensures f.JsonObject? && r.Err? ==> r.error == IllegalBase64
    ensures r.Ok? ==> r.value.httpMethod == f.doc.httpMethod && r.value.query == f.doc.query
                      && r.value.headers == f.doc.headers
                      && r.value.payload.Some? == f.doc.payload.Some?
    ensures r.Ok? && f.doc.payload.Some? ==> r.value.payload == Base64.Decode(f.doc.payload.value)
  {
    match f
    case NotAnEvent => Err(MalformedJson)
    case JsonObject(w) =>
      match w.payload
      case None => Ok(WebhookEvent(None, w.httpMethod, None, w.query, w.headers))
      case Some(text) =>
        match Base64.Decode(text)
        case None => Err(IllegalBase64)
        case Some(b) => Ok(WebhookEvent(None, w.httpMethod, Some(b), w.query, w.headers))
  }

  /** The routing channel has no influence on the wire form. */
  lemma ChannelNotSerialised(e: WebhookEvent, channel: Option<string>)
    ensures Marshal(e.(channel := channel)) == Marshal(e)
  {
  }

  /**
   * What the broker writes, the client reads back unchanged except for the
   * channel, which it never learns; any payload bytes, and a nil payload,
   * survive.
   */
  lemma {:induction false} RoundTrip(e: WebhookEvent)
    ensures Unmarshal(MarshalFrame(e)) == Ok(e.(channel := None))
  {
    match e.payload
    case None =>
    case Some(b) => Base64.RoundTrip(b);
  }

  /** Marshalling is injective on everything but the channel. */
  lemma MarshalInjective(e1: WebhookEvent, e2: WebhookEvent)
    requires Marshal(e1) == Marshal(e2)
    ensures e1.(channel := None) == e2.(channel := None)
  {
    RoundTrip(e1);
    RoundTrip(e2);
  }
}
