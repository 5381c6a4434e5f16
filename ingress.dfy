/**
 * The broker's `:service` handler turning an inbound HTTP call into an event
 * (main.go:89-107). Routing, the status it answers with and the `hub.challenge`
 * echo are not part of this model; the request's parts arrive as parameters.
 */
module Ingress {
  import opened Wrappers
  import opened Common

  /** Every query parameter carries the single value it had in the request. */
  ghost predicate SingletonQuery(query: map<string, seq<string>>, params: map<string, string>) {
    query.Keys == params.Keys && forall k :: k in params ==> query[k] == [params[k]]
  }

  /**
   * Builds the event broadcast for a call to `/<service>` with the given method,
   * body (`c.Body()`, which is nil when no body was read), query parameters
   * (`c.Queries()`) and request headers. The body is kept only for POST; each
   * query parameter becomes a one-element list.
   */
  method BuildEvent(service: string, httpMethod: string, body: Option<seq<byte>>,
                    params: map<string, string>, headers: map<string, string>)
    returns (e: WebhookEvent)
    ensures e.channel == Some(service) && e.httpMethod == httpMethod && e.headers == headers
    ensures e.payload == if httpMethod == "POST" then body else None
    ensures SingletonQuery(e.query, params)
  {
    var payload: Option<seq<byte>> := None;
    if httpMethod == "POST" {
      payload := body;
    }
    var query: map<string, seq<string>> := map[];
    var todo := params.Keys;
    while todo != {}
      invariant todo <= params.Keys
      invariant query.Keys == params.Keys - todo
      invariant forall k :: k in query ==> query[k] == [params[k]]
      decreases todo
    {
      var k :| k in todo;
      query := query[k := [params[k]]];
      todo := todo - {k};
    }
    e := WebhookEvent(Some(service), httpMethod, payload, query, headers);
  }

  /**
   * What the forwarding client decodes from an ingress event has the call's
   * method, headers and singleton query, and for a POST the call's body, nil
   * or not; any other call arrives without a payload.
   */
  lemma IngressThroughWire(e: WebhookEvent, service: string, httpMethod: string, body: Option<seq<byte>>,
                           params: map<string, string>, headers: map<string, string>)
    requires e.channel == Some(service) && e.httpMethod == httpMethod && e.headers == headers
    requires e.payload == if httpMethod == "POST" then body else None
    requires SingletonQuery(e.query, params)
    ensures var d := Unmarshal(MarshalFrame(e));
      && d.Ok? && d.value.channel == None && d.value.httpMethod == httpMethod
      && d.value.headers == headers && SingletonQuery(d.value.query, params)
      && d.value.payload == if httpMethod == "POST" then body else None
  {
    RoundTrip(e);
  }
}
