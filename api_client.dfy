/**
 `ApiClient`: authenticated requests with a bounded retry loop and a mock
 mode that bypasses the network. The configuration read at class load is a
 `ClientConfig` value; the network is a `Transport`, a script giving the
 outcome of each attempt by its number, and the canned mock response is a
 parameter.
 */
module ApiClient {
  import opened Common

  /** The static configuration the class reads from `config.properties`. */
  datatype ClientConfig = ClientConfig(
    baseUrl: string,
    accessKey: string,
    secretKey: string,
    clientId: string,
    mockMode: bool,
    timeoutMs: int,
    maxRetries: int)

  datatype Response = Response(statusCode: int, body: string)

  /** What one attempt's HTTP exchange gives: a response, or an exception. */
  datatype Outcome = Answered(response: Response) | Threw(message: string)

  /** The outcome of attempt number `i` (counting from 0). */
  type Transport = nat -> Outcome

  /** A request as it goes on the wire. */
  datatype Request = Request(verb: string, url: string, headers: map<string, string>, body: string)

  /** What `sendRequest` does: return a response, or throw a `RuntimeException` with this message. */
  datatype SendResult = Returned(response: Response) | Failed(message: string)

  const ContentType := "application/json"

  /** The constants of RestAssured's `Method` enum: `Method.valueOf` throws on any other name. */
  const HttpMethods: set<string> := {"GET", "PUT", "POST", "DELETE", "HEAD", "TRACE", "OPTIONS", "PATCH"}

  /** `buildAuthHeaders(uri)`: the access key, the secret key and the content type; no `Authorization`. */
  function BuildAuthHeaders(cfg: ClientConfig, uri: string): (headers: map<string, string>)
    ensures headers.Keys == {"zapiAccessKey", "zapiSecretKey", "Content-Type"}
    ensures headers["zapiAccessKey"] == cfg.accessKey && headers["zapiSecretKey"] == cfg.secretKey
    ensures headers["Content-Type"] == ContentType
    ensures "Authorization" !in headers
  {
    map["zapiAccessKey" := cfg.accessKey, "zapiSecretKey" := cfg.secretKey, "Content-Type" := ContentType]
  }

  /** The `uri` argument is never used: every request gets the same headers. */
  lemma AuthHeadersIgnoreUri(cfg: ClientConfig, u1: string, u2: string)
    ensures BuildAuthHeaders(cfg, u1) == BuildAuthHeaders(cfg, u2)
  {
  }

  /** `body != null ? body : ""`. */
  function BodyText(body: Option<string>): (text: string)
    ensures body.None? ==> text == ""
    ensures body.Some? ==> text == body.value
  {
    match body
    case Some(text) => text
    case None => ""
  }

  predicate IsSuccess(statusCode: int)
  {
    200 <= statusCode < 300
  }

  predicate Succeeded(outcome: Outcome)
  {
    outcome.Answered? && IsSuccess(outcome.response.statusCode)
  }

  /** The first attempt number in `[from, limit)` whose outcome is a 2xx response. */
  function FirstSuccess(transport: Transport, from: nat, limit: int): (r: Option<nat>)
    ensures r.Some? ==> from <= r.value < limit && Succeeded(transport(r.value))
    ensures r.Some? ==> forall k :: from <= k < r.value ==> !Succeeded(transport(k))
    ensures r.None? ==> forall k :: from <= k < limit ==> !Succeeded(transport(k))
    decreases limit - from
  {
    if limit <= from then None
    else if Succeeded(transport(from)) then Some(from)
    else FirstSuccess(transport, from + 1, limit)
  }

  /** The number of attempts a loop `while (attempt < maxRetries)` makes when none succeeds. */
  function AttemptLimit(maxRetries: int): nat
  {
    if maxRetries < 0 then 0 else maxRetries
  }

  function FailureMessage(endpoint: string): string
  {
    "\U{274C} All attempts failed for endpoint: " + endpoint
  }

  /**
   `sendRequest(method, endpoint, body)`. Returns what the method returns or
   throws, the number of attempts the loop made, and the requests that went
   out (an unknown method name throws inside the loop before anything is
   sent, which costs an attempt like any other failure).
   */
  method SendRequest(cfg: ClientConfig, httpMethod: string, endpoint: string, body: Option<string>,
                     mockResponse: Response, transport: Transport)
    returns (result: SendResult, attempts: nat, sent: seq<Request>)
    // mock mode: the canned response, no attempt
    ensures cfg.mockMode ==> result == Returned(mockResponse) && attempts == 0 && sent == []
    // never more attempts than the configured maximum
    ensures attempts <= AttemptLimit(cfg.maxRetries)
    // every attempt sends the same request, to BASE_URL + endpoint, with the headers built once
    ensures forall r :: r in sent ==>
              r == Request(Upper(httpMethod), cfg.baseUrl + endpoint, BuildAuthHeaders(cfg, cfg.baseUrl + endpoint), BodyText(body))
    ensures |sent| == if Upper(httpMethod) in HttpMethods then attempts else 0
    // the first 2xx answer is returned at once
    ensures !cfg.mockMode && Upper(httpMethod) in HttpMethods && FirstSuccess(transport, 0, cfg.maxRetries).Some? ==>
              var i := FirstSuccess(transport, 0, cfg.maxRetries).value;
              result == Returned(transport(i).response) && attempts == i + 1
    // otherwise every allowed attempt is spent and the call throws, naming the endpoint
    ensures !cfg.mockMode && (Upper(httpMethod) !in HttpMethods || FirstSuccess(transport, 0, cfg.maxRetries).None?) ==>
              result == Failed(FailureMessage(endpoint)) && attempts == AttemptLimit(cfg.maxRetries)
  {
    if cfg.mockMode {
      return Returned(mockResponse), 0, [];
    }

    var url := cfg.baseUrl + endpoint;
    var headers := BuildAuthHeaders(cfg, url);
    var request := Request(Upper(httpMethod), url, headers, BodyText(body));
    var valid := Upper(httpMethod) in HttpMethods;

    var attempt := 0;
    sent := [];
    while attempt < cfg.maxRetries
      invariant 0 <= attempt <= AttemptLimit(cfg.maxRetries)
      invariant forall k :: 0 <= k < attempt ==> !(valid && Succeeded(transport(k)))
      invariant sent == seq(if valid then attempt else 0, _ => request)
      decreases cfg.maxRetries - attempt
    {
      if valid {
        sent := sent + [request];
        match transport(attempt)
        case Answered(response) =>
          if IsSuccess(response.statusCode) {
            assert FirstSuccess(transport, 0, cfg.maxRetries) == Some(attempt) by {
              FirstSuccessIs(transport, cfg.maxRetries, attempt);
            }
            return Returned(response), attempt + 1, sent;
          }
        case Threw(_) =>
      }
      attempt := attempt + 1;
    }
    return Failed(FailureMessage(endpoint)), attempt, sent;
  }

  lemma FirstSuccessIs(transport: Transport, limit: int, i: nat)
    requires i < limit && Succeeded(transport(i))
    requires forall k :: 0 <= k < i ==> !Succeeded(transport(k))
    ensures FirstSuccess(transport, 0, limit) == Some(i)
  {
    var r := FirstSuccess(transport, 0, limit);
    assert r.Some?;
    assert !(r.value < i);
  }

  /**
   Two 500 answers then a 200, with three attempts allowed: `sendRequest`
   returns the 200 response after exactly three attempts, each of which sent
   a POST.
   */
  method ThirdAttemptSucceeds() returns (result: SendResult, attempts: nat, sent: seq<Request>)
    ensures result == Returned(Response(200, "ok"))
    ensures attempts == 3 && |sent| == 3
    ensures forall r :: r in sent ==> r.verb == "POST"
  {
    var cfg := ClientConfig("https://zephyr.example", "access", "secret", "client", false, 30000, 3);
    var transport: Transport := i => if i < 2 then Answered(Response(500, "error")) else Answered(Response(200, "ok"));
    assert !Succeeded(transport(0)) && !Succeeded(transport(1)) && Succeeded(transport(2));
    FirstSuccessIs(transport, 3, 2);
    assert Upper("post") == "POST";
    result, attempts, sent := SendRequest(cfg, "post", "/public/rest/api/1.0/cycle", None, Response(200, "mock"), transport);
  }
}
