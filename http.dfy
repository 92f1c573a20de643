/**
  The transport half of `ZatroleneHryClient`: how the request URL is built
  from the stored base URL and an endpoint, and how the outcome of one HTTP
  request collapses to "a decoded payload" or "absent". The request itself
  (session, method, query parameters, the 10-second timeout, reading and
  decoding the body) is outside the model: its outcome is an input.
 */
module Http {
  import opened Wrappers
  import opened JsonValue

  /** `s.rstrip('/')`: `s` without all of its trailing slashes. */
  function RStripSlashes(s: string): (r: string)
    ensures r <= s
    ensures r == [] || r[|r| - 1] != '/'
    ensures forall i :: |r| <= i < |s| ==> s[i] == '/'
  {
    if s != [] && s[|s| - 1] == '/' then RStripSlashes(s[..|s| - 1]) else s
  }

  /** `s.lstrip('/')`: `s` without all of its leading slashes. */
  function LStripSlashes(s: string): (r: string)
    ensures |r| <= |s| && r == s[|s| - |r|..]
    ensures r == [] || r[0] != '/'
    ensures forall i :: 0 <= i < |s| - |r| ==> s[i] == '/'
  {
    if s != [] && s[0] == '/' then LStripSlashes(s[1..]) else s
  }

  /** The URL `_make_request` asks for: the stored base, one slash, the endpoint. */
  function RequestUrl(base: string, endpoint: string): string {
    base + "/" + LStripSlashes(endpoint)
  }

  /**
    For a base stored by the constructor, the URL is that base, then exactly
    one slash, then the endpoint stripped of its leading slashes: the slash
    at the join is neither preceded nor followed by another slash.
   */
  lemma RequestUrlJoin(rawBase: string, endpoint: string)
    ensures var base := RStripSlashes(rawBase);
            var url := RequestUrl(base, endpoint);
            && url[..|base|] == base
            && url[|base|] == '/'
            && (|base| == 0 || url[|base| - 1] != '/')
            && (|url| == |base| + 1 || url[|base| + 1] != '/')
            && url[|base| + 1..] == LStripSlashes(endpoint)
            && url[|base| + 1..] == endpoint[|endpoint| - |url[|base| + 1..]|..]
  {
  }

  /** Leading slashes on the endpoint do not change the URL. */
  lemma {:induction false} RequestUrlIgnoresLeadingSlash(base: string, endpoint: string)
    ensures RequestUrl(base, "/" + endpoint) == RequestUrl(base, endpoint)
  {
    assert ("/" + endpoint)[1..] == endpoint;
  }

  /** Stripping the base again changes nothing: the stored base never ends in '/'. */
  lemma {:induction false} RStripSlashesIdempotent(s: string)
    ensures RStripSlashes(RStripSlashes(s)) == RStripSlashes(s)
  {
  }

  /**
    What one request can come to. `Response` carries the HTTP status and, for
    the body, the decoded JSON or `None` when decoding raised; the other three
    are the exception handlers of `_make_request`.
   */
  datatype Outcome =
    | Response(status: int, body: Option<Json>)
    | Timeout
    | ClientError
    | UnexpectedError

  /** The network, seen from the client: the outcome of requesting one URL. */
  type Network = string -> Outcome

  /**
    `_make_request`'s classification: only a 200 response yields a payload
    (its decoded body); 404, every other status, a timeout, a client error,
    an undecodable body and any other exception all yield `None`.
   */
  function Classify(o: Outcome): (r: Option<Json>)
    ensures r.Some? <==> o.Response? && o.status == 200 && o.body.Some?
    ensures r.Some? ==> r == o.body
  {
    match o
    case Response(status, body) => if status == 200 then body else None
    case _ => None
  }

  /**
    The model's definition of the per-candidate outcomes: the classified
    response of requesting each candidate endpoint, in candidate order.
   */
  function Responses(base: string, endpoints: seq<string>, network: Network): seq<Option<Json>> {
    seq(|endpoints|, i requires 0 <= i < |endpoints| => Classify(network(RequestUrl(base, endpoints[i]))))
  }
}
