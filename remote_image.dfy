/** `Util.get_remote_image_length`: ask a server for an image's
    content-length, retrying once with GET and without certificate
    verification after an HTTP error. The network is not modelled: the
    server is a function from the request number and the request to its
    response. */
module RemoteImage {
  import opened Wrappers

  /** The TLS context a request is made with: the default (`None`), one the
      caller supplied, or the unverified context of the retry. */
  datatype TlsContext = DefaultContext | CallerContext(name: string) | Unverified

  datatype Request = Request(httpMethod: string, context: TlsContext)

  /** A response with its `content-length` header (None when absent), an
      `HTTPError`, or any other exception (an unreachable host, a timeout). */
  datatype Response = Reply(contentLength: Option<string>) | HttpError | OtherError

  /** How the call ends: returning a length (possibly None), or with an
      exception that is not an `HTTPError` escaping to the caller. */
  datatype Ending = Length(header: Option<string>) | Raised

  datatype Probe = Probe(ending: Ending, requests: seq<Request>)

  /** Requests a call started with this `attempt` value may make. */
  function RequestBudget(attempt: int): nat {
    if attempt < 1 then 2 - attempt else 1
  }

  /** The source's recursion: `sent` requests were made before this call. */
  function ProbeFrom(httpMethod: string, attempt: int, context: TlsContext, sent: nat,
                     server: (nat, Request) -> Response): (p: Probe)
    ensures 1 <= |p.requests| <= RequestBudget(attempt)
    ensures p.requests[0] == Request(httpMethod, context)
    decreases if attempt < 2 then 2 - attempt else 0
  {
    var request := Request(httpMethod, context);
    match server(sent, request)
    case Reply(header) => Probe(Length(header), [request])
    case OtherError => Probe(Raised, [request])
    case HttpError =>
      if attempt + 1 < 2 then
        var retry := ProbeFrom("GET", attempt + 1, Unverified, sent + 1, server);
        Probe(retry.ending, [request] + retry.requests)
      else
        Probe(Length(None), [request])
  }

  /** A probe that continues after the requests already made. */
  function Resumed(made: seq<Request>, rest: Probe): Probe {
    Probe(rest.ending, made + rest.requests)
  }

  /** The retry policy, as a loop: count the attempt, send the request, and
      after an HTTP error retry with GET and an unverified context while
      the counter is below 2. */
  method GetRemoteImageLength(httpMethod: string, attempt: int, context: TlsContext,
                              server: (nat, Request) -> Response)
    returns (ending: Ending, requests: seq<Request>)
    ensures Probe(ending, requests) == ProbeFrom(httpMethod, attempt, context, 0, server)
  {
    var currentMethod, tries, currentContext := httpMethod, attempt, context;
    requests := [];
    while true
      invariant ProbeFrom(httpMethod, attempt, context, 0, server)
             == Resumed(requests, ProbeFrom(currentMethod, tries, currentContext, |requests|, server))
      decreases if tries < 2 then 2 - tries else 0
    {
      var request := Request(currentMethod, currentContext);
      var response := server(|requests|, request);
      if response.HttpError? && tries + 1 < 2 {
        RetryContinues(requests, currentMethod, tries, currentContext, server);
        requests := requests + [request];
        currentMethod, tries, currentContext := "GET", tries + 1, Unverified;
      } else {
        LastRequestEnds(requests, currentMethod, tries, currentContext, server);
        requests := requests + [request];
        ending := match response
                  case Reply(header) => Length(header)
                  case OtherError => Raised
                  case HttpError => Length(None);
        return;
      }
    }
  }

  /** After an HTTP error with retries left, the call goes on as the retry. */
  lemma RetryContinues(made: seq<Request>, httpMethod: string, attempt: int, context: TlsContext,
                       server: (nat, Request) -> Response)
    requires server(|made|, Request(httpMethod, context)).HttpError? && attempt + 1 < 2
    ensures Resumed(made, ProbeFrom(httpMethod, attempt, context, |made|, server))
         == Resumed(made + [Request(httpMethod, context)],
                    ProbeFrom("GET", attempt + 1, Unverified, |made| + 1, server))
  {
    var next := ProbeFrom("GET", attempt + 1, Unverified, |made| + 1, server);
    assert made + ([Request(httpMethod, context)] + next.requests)
        == (made + [Request(httpMethod, context)]) + next.requests;
  }

  /** Any other response ends the call with this request. */
  lemma LastRequestEnds(made: seq<Request>, httpMethod: string, attempt: int, context: TlsContext,
                        server: (nat, Request) -> Response)
    requires !(server(|made|, Request(httpMethod, context)).HttpError? && attempt + 1 < 2)
    ensures Resumed(made, ProbeFrom(httpMethod, attempt, context, |made|, server))
         == Probe(match server(|made|, Request(httpMethod, context))
                  case Reply(header) => Length(header)
                  case OtherError => Raised
                  case HttpError => Length(None),
                  made + [Request(httpMethod, context)])
  {
  }

  /** Whatever the start: the first request is the caller's; every later one
      is a GET with an unverified context, made only after an HTTP error;
      no more requests are made than the budget allows; the last response
      decides the ending, and an HTTP error ends the call only once the
      budget is spent. */
  lemma {:induction false} ProbeShape(httpMethod: string, attempt: int, context: TlsContext, sent: nat,
                                      server: (nat, Request) -> Response)
    ensures var p := ProbeFrom(httpMethod, attempt, context, sent, server);
      && 1 <= |p.requests| <= RequestBudget(attempt)
      && p.requests[0] == Request(httpMethod, context)
      && (forall i :: 1 <= i < |p.requests| ==> p.requests[i] == Request("GET", Unverified))
      && (forall i :: 0 <= i < |p.requests| - 1 ==> server(sent + i, p.requests[i]).HttpError?)
      && var last := server(sent + |p.requests| - 1, p.requests[|p.requests| - 1]);
         && (last.Reply? ==> p.ending == Length(last.contentLength))
         && (last.OtherError? ==> p.ending == Raised)
         && (last.HttpError? ==> p.ending == Length(None) && |p.requests| == RequestBudget(attempt))
    decreases if attempt < 2 then 2 - attempt else 0
  {
    var request := Request(httpMethod, context);
    var p := ProbeFrom(httpMethod, attempt, context, sent, server);
    if server(sent, request).HttpError? && attempt + 1 < 2 {
      ProbeShape("GET", attempt + 1, Unverified, sent + 1, server);
      var retry := ProbeFrom("GET", attempt + 1, Unverified, sent + 1, server);
      assert p.requests == [request] + retry.requests;
      assert forall i :: 1 <= i < |p.requests| ==> p.requests[i] == retry.requests[i - 1];
    }
  }

  /** The call the plugin makes (`attempt` 0): one request with the caller's
      method and context, then, only after an HTTP error, one GET with an
      unverified context; two HTTP errors give None. */
  lemma DefaultProbe(httpMethod: string, context: TlsContext, server: (nat, Request) -> Response)
    ensures var p := ProbeFrom(httpMethod, 0, context, 0, server);
      var first := Request(httpMethod, context);
      var retry := Request("GET", Unverified);
      match server(0, first)
      case Reply(header) => p == Probe(Length(header), [first])
      case OtherError => p == Probe(Raised, [first])
      case HttpError =>
        && p.requests == [first, retry]
        && p.ending == match server(1, retry)
                       case Reply(header) => Length(header)
                       case HttpError => Length(None)
                       case OtherError => Raised
  {
  }
}
