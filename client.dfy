/**
 * The forwarding client (client.go): rebuilding an outbound HTTP request from a
 * received event (`SendRequest`, client.go:27-66), the response-log file name
 * (client.go:75) and the websocket URL it dials (client.go:99-104).
 *
 * `QueryEscape` and `CanonicalMIMEHeaderKey` are library functions and are
 * fields of the client here; sending the request, reading the clock and writing
 * the log file are I/O, so the response status and the timestamp are inputs.
 */
module Client {
  import opened Wrappers
  import opened Common
  import opened Urls

  /** The request `http.NewRequest` builds and the header loop completes. */
  datatype Request = Request(httpMethod: string, url: string, body: Option<seq<byte>>, header: map<string, string>)

  /** How the response status is reported (client.go:58-62). */
  datatype Status = ErrorResponse(code: int) | SuccessResponse(code: int)

  datatype SendOutcome =
    | MalformedPayload(reason: DecodeError)  // client.go:31-34
    | RequestNotBuilt                        // client.go:45-49
    | ForwardFailed(request: Request)        // client.go:55-56
    | Forwarded(request: Request, status: Status, logFile: Option<string>)

  /** The body is the payload, verbatim, for a POST that carries one; every other request has none. */
  function RequestBody(e: WebhookEvent): (body: Option<seq<byte>>)
    ensures body.Some? <==> e.httpMethod == "POST" && e.payload.Some?
    ensures body.Some? ==> body == e.payload
  {
    if e.httpMethod == "POST" && e.payload.Some? then e.payload else None
  }

  /** A `tchar` of section 3.2.6 of RFC 7230, the characters a method token may use. */
  predicate IsTokenChar(c: char) {
    ('a' <= c <= 'z') || ('A' <= c <= 'Z') || ('0' <= c <= '9')
    || c in {'!', '#', '$', '%', '&', '\'', '*', '+', '-', '.', '^', '_', '`', '|', '~'}
  }

  predicate ValidMethod(m: string) {
    |m| > 0 && forall i :: 0 <= i < |m| ==> IsTokenChar(m[i])
  }

  /**
   * `http.NewRequest`: an empty method means GET, any other method must be a
   * token; the new request has no headers.
   */
  function NewRequest(httpMethod: string, url: string, body: Option<seq<byte>>): (r: Option<Request>)
    ensures r.Some? <==> httpMethod == "" || ValidMethod(httpMethod)
    ensures r.Some? ==> r.value.url == url && r.value.body == body && r.value.header == map[]
    ensures r.Some? ==> r.value.httpMethod == (if httpMethod == "" then "GET" else httpMethod)
  {
    var effective := if httpMethod == "" then "GET" else httpMethod;
    if ValidMethod(effective) then Some(Request(effective, url, body, map[])) else None
  }

  /** The header names `Header.Set` writes for the given names. */
  function CanonicalNames(names: set<string>, canon: string -> string): set<string> {
    set h | h in names :: canon(h)
  }

  lemma CanonicalNamesAdd(names: set<string>, h: string, canon: string -> string)
    ensures CanonicalNames(names + {h}, canon) == CanonicalNames(names, canon) + {canon(h)}
  {
  }

  /**
   * `r` is `initial` after `Set(h, hs[h])` for every name `h` of `done`, in
   * some order: each written name holds the value of one of those headers that
   * has that name, and every other header keeps its value.
   */
  ghost predicate AppliedSoFar(initial: map<string, string>, hs: map<string, string>, canon: string -> string,
                               done: set<string>, r: map<string, string>) {
    && done <= hs.Keys
    && r.Keys == initial.Keys + CanonicalNames(done, canon)
    && (forall k :: k in initial && k !in CanonicalNames(done, canon) ==> r[k] == initial[k])
    && (forall k :: k in CanonicalNames(done, canon) ==> r[k] in Candidates(hs, done, canon, k))
  }

  /** The values of the headers among `names` whose canonical name is `k`. */
  function Candidates(hs: map<string, string>, names: set<string>, canon: string -> string, k: string): set<string>
    requires names <= hs.Keys
  {
    set h | h in names && canon(h) == k :: hs[h]
  }

  /** `r` is `initial` after setting every event header, in some order. */
  ghost predicate HeadersApplied(initial: map<string, string>, hs: map<string, string>,
                                 canon: string -> string, r: map<string, string>) {
    AppliedSoFar(initial, hs, canon, hs.Keys, r)
  }

  /** One more `Header.Set` extends what has been applied by one name. */
  lemma SetOneHeader(initial: map<string, string>, hs: map<string, string>, canon: string -> string,
                     done: set<string>, r: map<string, string>, h: string)
    requires AppliedSoFar(initial, hs, canon, done, r) && h in hs
    ensures AppliedSoFar(initial, hs, canon, done + {h}, r[canon(h) := hs[h]])
  {
    var r' := r[canon(h) := hs[h]];
    CanonicalNamesAdd(done, h, canon);
    forall k | k in CanonicalNames(done + {h}, canon)
      ensures r'[k] in Candidates(hs, done + {h}, canon, k)
    {
      if k == canon(h) {
        assert r'[k] == hs[h];
      } else {
        assert Candidates(hs, done, canon, k) <= Candidates(hs, done + {h}, canon, k);
      }
    }
  }

  /** No two event header names have the same canonical form. */
  ghost predicate DistinctNames(hs: map<string, string>, canon: string -> string) {
    forall h, h' :: h in hs && h' in hs && canon(h) == canon(h') ==> h == h'
  }

  /** When no two names collide, every event header ends up with exactly its own value. */
  lemma AppliedExactly(initial: map<string, string>, hs: map<string, string>,
                       canon: string -> string, r: map<string, string>)
    requires HeadersApplied(initial, hs, canon, r) && DistinctNames(hs, canon)
    ensures forall h :: h in hs ==> canon(h) in r && r[canon(h)] == hs[h]
  {
    forall h | h in hs ensures canon(h) in r && r[canon(h)] == hs[h] {
      assert canon(h) in CanonicalNames(hs.Keys, canon);
      assert Candidates(hs, hs.Keys, canon, canon(h)) == {hs[h]};
    }
  }

  /**
   * The header loop (client.go:51-53): one `Header.Set` per event header, in
   * Go's unspecified map order.
   */
  method ApplyHeaders(initial: map<string, string>, hs: map<string, string>, canon: string -> string)
    returns (r: map<string, string>)
    ensures HeadersApplied(initial, hs, canon, r)
  {
    r := initial;
    var todo := hs.Keys;
    ghost var done: set<string> := {};
    while todo != {}
      invariant todo <= hs.Keys && done == hs.Keys - todo
      invariant AppliedSoFar(initial, hs, canon, done, r)
      decreases todo
    {
      var h :| h in todo;
      SetOneHeader(initial, hs, canon, done, r, h);
      r := r[canon(h) := hs[h]];
      done := done + {h};
      todo := todo - {h};
    }
  }

  /** `response.StatusCode >= 400` decides how the response is reported. */
  function Classify(code: int): (s: Status)
    ensures s.code == code
    ensures s.ErrorResponse? <==> code >= 400
  {
    if code >= 400 then ErrorResponse(code) else SuccessResponse(code)
  }

  /** `strings.ReplaceAll(s, " ", "_")`. */
  function ReplaceSpaces(s: string): (r: string)
    ensures |r| == |s|
    ensures forall i :: 0 <= i < |s| ==> r[i] == if s[i] == ' ' then '_' else s[i]
    decreases |s|
  {
    if s == "" then ""
    else [if s[0] == ' ' then '_' else s[0]] + ReplaceSpaces(s[1..])
  }

  /** The name a response body is saved under (client.go:75). */
  function LogFileName(httpMethod: string, service: string, timestamp: string): (name: string)
    ensures |name| == |httpMethod| + |service| + |timestamp| + 6
    ensures name[..|httpMethod| + |service| + 2] == httpMethod + "-" + service + "-"
    ensures name[|name| - 4..] == ".txt"
  {
    var prefix := httpMethod + "-" + service + "-";
    var name := prefix + ReplaceSpaces(timestamp) + ".txt";
    assert name == prefix + (ReplaceSpaces(timestamp) + ".txt");
    name
  }

  /** The file name has no spaces unless the method or the service name brings one. */
  lemma LogFileNameNoSpaces(httpMethod: string, service: string, timestamp: string)
    requires ' ' !in httpMethod && ' ' !in service
    ensures ' ' !in LogFileName(httpMethod, service, timestamp)
  {
    var t := ReplaceSpaces(timestamp);
    assert ' ' !in t by {
      forall i | 0 <= i < |t| ensures t[i] != ' ' {
      }
    }
    var name := LogFileName(httpMethod, service, timestamp);
    assert name == httpMethod + "-" + service + "-" + t + ".txt";
    forall i | 0 <= i < |name| ensures name[i] != ' ' {
      var m, s := |httpMethod|, |service|;
      if i < m {
        assert name[i] == httpMethod[i];
      } else if i == m {
      } else if i < m + 1 + s {
        assert name[i] == service[i - m - 1];
      } else if i == m + 1 + s {
      } else if i < m + 2 + s + |t| {
        assert name[i] == t[i - m - 2 - s];
      } else {
        assert name[i] == ".txt"[i - m - 2 - s - |t|];
      }
    }
  }

  /** The timestamp can be read back from the file name up to spaces written as `_`. */
  lemma LogFileNameTimestamp(httpMethod: string, service: string, timestamp: string)
    ensures var name := LogFileName(httpMethod, service, timestamp);
      var start := |httpMethod| + |service| + 2;
      |name| == start + |timestamp| + 4
      && name[start..start + |timestamp|] == ReplaceSpaces(timestamp)
  {
    var name := LogFileName(httpMethod, service, timestamp);
    var start := |httpMethod| + |service| + 2;
    assert name == (httpMethod + "-" + service + "-") + ReplaceSpaces(timestamp) + ".txt";
  }

  /** The URL the client dials: `ws` or `wss`, the broker address, path `ws/<service>`. */
  function WebSocketUrl(address: string, ssl: bool, service: string): (u: Url)
    ensures u.scheme == (if ssl then "wss" else "ws")
    ensures u.host == address && u.path == "ws/" + service
    ensures !u.forceQuery && u.rawQuery == "" && u.fragment == ""
  {
    Url(if ssl then "wss" else "ws", address, "ws/" + service, false, "", "")
  }

  /** A character `URL.EscapedPath` leaves as it is. */
  predicate PathSafe(c: char) {
    || 'a' <= c <= 'z' || 'A' <= c <= 'Z' || '0' <= c <= '9'
    || c in "-_.~$&+,/:;=@"
  }

  /** A character `URL.String` leaves as it is in a host, for any host text. */
  predicate HostSafe(c: char) {
    || 'a' <= c <= 'z' || 'A' <= c <= 'Z' || '0' <= c <= '9'
    || c in "-._~:[]"
  }

  /**
   * Its text, for a non-empty address: `ws://<address>/ws/<service>` (or
   * `wss://`), when neither the address nor the service needs escaping.
   */
  lemma WebSocketUrlText(address: string, ssl: bool, service: string)
    requires address != ""
    requires forall i :: 0 <= i < |address| ==> HostSafe(address[i])
    requires forall i :: 0 <= i < |service| ==> PathSafe(service[i])
    ensures UrlString(WebSocketUrl(address, ssl, service)) ==
      (if ssl then "wss" else "ws") + "://" + address + "/ws/" + service
  {
    var scheme := if ssl then "wss" else "ws";
    UrlStringWithHost(WebSocketUrl(address, ssl, service));
    assert ("ws/" + service)[0] == 'w';
    assert scheme + "://" + address + "/" + ("ws/" + service) + "" == scheme + "://" + address + "/ws/" + service;
  }

  /**
   * An event without query values leaves the forwarding URL with no query at
   * all, whatever query the base URL carried (unless the base forces a `?`).
   */
  lemma EmptyQueryClearsUrl(base: Url, q: map<string, seq<string>>, escape: string -> string)
    requires !base.forceQuery
    requires forall k :: k in q ==> q[k] == []
    ensures UrlString(base.(rawQuery := EncodeQuery(q, escape))) ==
      UrlString(base.(rawQuery := "", forceQuery := false))
  {
  }

  /**
   * The example of a GET with a two-valued query forwarded to
   * `http://localhost:8000`: no body, and the values as two pairs of the query.
   */
  lemma ForwardGetWithQuery(e: WebhookEvent)
    requires e.httpMethod == "GET" && e.query == map["a" := ["1", "2"]]
    ensures RequestBody(e) == None
    ensures var base := Url("http", "localhost:8000", "", false, "", "");
      UrlString(base.(rawQuery := EncodeQuery(e.query, s => s))) == "http://localhost:8000?a=1&a=2"
  {
    EncodeTwoValues();
    LocalhostWithQuery();
  }

  lemma LocalhostWithQuery()
    ensures UrlString(Url("http", "localhost:8000", "", false, "a=1&a=2", "")) == "http://localhost:8000?a=1&a=2"
  {
    var u := Url("http", "localhost:8000", "", false, "a=1&a=2", "");
    UrlStringWithHost(u);
    var front := "http" + "://" + "localhost:8000";
    assert "http" + "://" == "http://";
    assert front == "http://localhost:8000";
    assert UrlString(u) == front + "" + "" + ("?" + "a=1&a=2");
    assert front + "" + "" == front;
    assert "?" + "a=1&a=2" == "?a=1&a=2";
    assert "http://localhost:8000" + "?a=1&a=2" == "http://localhost:8000?a=1&a=2";
  }

  class ForwardingClient {
    /** The `-address` flag: the broker's host and port. */
    const address: string
    /** The `-service` flag: the channel subscribed to. */
    const service: string
    /** The `-ssl` flag. */
    const ssl: bool
    /** The `-log` flag. */
    const logResponses: bool
    /** `url.QueryEscape`. */
    const queryEscape: string -> string
    /** `textproto.CanonicalMIMEHeaderKey`, which `Header.Set` applies to names. */
    const canonicalKey: string -> string
    /** The global `forwardToUrl`, parsed from the `-forward` flag at start-up. */
    var forwardTo: Url

    constructor (address: string, service: string, ssl: bool, logResponses: bool,
                 queryEscape: string -> string, canonicalKey: string -> string, forwardTo: Url)
      ensures this.address == address && this.service == service && this.ssl == ssl
      ensures this.logResponses == logResponses && this.forwardTo == forwardTo
      ensures this.queryEscape == queryEscape && this.canonicalKey == canonicalKey
    {
      this.address := address;
      this.service := service;
      this.ssl := ssl;
      this.logResponses := logResponses;
      this.queryEscape := queryEscape;
      this.canonicalKey := canonicalKey;
      this.forwardTo := forwardTo;
    }

    /** The URL dialled at start-up (client.go:99-104). */
    function DialUrl(): (u: Url)
      ensures u.host == address && u.path == "ws/" + service
      ensures u.scheme == (if ssl then "wss" else "ws")
    {
      WebSocketUrl(address, ssl, service)
    }

    /**
     * Handles one received frame (client.go:27-66). A frame that does not
     * decode is dropped before anything changes. Otherwise the global URL's
     * query is replaced by the event's query, the request is built with the
     * event's method, the POST payload as body and the event's headers, and
     * `response` is what sending it returned: `None` for a transport error,
     * otherwise the status code. With `-log` on, every response is saved
     * under `LogFileName` stamped with `timestamp`.
     */
    method SendRequest(frame: Frame, response: Option<int>, timestamp: string) returns (outcome: SendOutcome)
      modifies this
      ensures Unmarshal(frame).Err? ==>
        outcome == MalformedPayload(Unmarshal(frame).error) && forwardTo == old(forwardTo)
      ensures Unmarshal(frame).Ok? ==>
        var e := Unmarshal(frame).value;
        && forwardTo == old(forwardTo).(rawQuery := EncodeQuery(e.query, queryEscape))
        && (outcome == RequestNotBuilt <==> !(e.httpMethod == "" || ValidMethod(e.httpMethod)))
        && (outcome != RequestNotBuilt ==>
              && (outcome.ForwardFailed? || outcome.Forwarded?)
              && outcome.request.httpMethod == (if e.httpMethod == "" then "GET" else e.httpMethod)
              && outcome.request.url == UrlString(forwardTo)
              && outcome.request.body == RequestBody(e)
              && HeadersApplied(map[], e.headers, canonicalKey, outcome.request.header)
              && (response.None? ==> outcome.ForwardFailed?)
              && (response.Some? ==>
                    && outcome.Forwarded? && outcome.status == Classify(response.value)
                    && outcome.logFile == (if logResponses then Some(LogFileName(e.httpMethod, service, timestamp)) else None)))
    {
      var decoded := Unmarshal(frame);
      if decoded.Err? {
        return MalformedPayload(decoded.error);
      }
      var event := decoded.value;
      var body := RequestBody(event);
      forwardTo := forwardTo.(rawQuery := EncodeQuery(event.query, queryEscape));
      var url := UrlString(forwardTo);
      var built := NewRequest(event.httpMethod, url, body);
      if built.None? {
        return RequestNotBuilt;
      }
      var req := built.value;
      var header := ApplyHeaders(req.header, event.headers, canonicalKey);
      req := req.(header := header);
      if response.None? {
        return ForwardFailed(req);
      }
      var logFile := if logResponses then Some(LogFileName(event.httpMethod, service, timestamp)) else None;
      outcome := Forwarded(req, Classify(response.value), logFile);
    }
  }
}
