/** The HTTP probe of backends/request_backend.py, over an abstract request outcome:
    the network, TLS and the `notAfter` date parsing are not modelled, their results are
    inputs. */
module Probes {
  import opened Wrappers
  import opened Clock
  import opened Services

  const UserAgent: string :=
    "Mozilla/5.0 (Windows NT 10.0; Win64; x64) AppleWebKit/537.36 "
    + "(KHTML, like Gecko) Chrome/91.0.4472.114 Safari/537.36"

  datatype HttpRequest = HttpRequest(verb: string, url: string, headers: seq<(string, string)>)

  /** A response: its status code, its elapsed time, and the `notAfter` date of the peer
      certificate when the stream carries a TLS object (`None` for plain HTTP). */
  datatype HttpResponse = HttpResponse(statusCode: int, elapsed: Float, peerCertNotAfter: Option<DateTime>)

  /** What `session.request` did: raised `httpx.HTTPError`, raised
      `ssl.SSLCertVerificationError`, or returned a response. */
  datatype RequestOutcome = HttpError | CertVerificationError | Responded(response: HttpResponse)

  /** The tuple `(service_is_healthy, time_to_first_byte, expire_date, status_code)`. */
  datatype ProbeResult = ProbeResult(healthy: bool, ttfb: Option<Float>, expireDate: Option<DateTime>, statusCode: Option<int>)

  /** The exception that escapes `check`: a response without a TLS object makes
      `ssl_object.getpeercert()` raise `AttributeError`. */
  datatype ProbeError = NoTlsObject

  /** The request `check` sends for a backend. */
  function Request(b: RequestBackend): (r: HttpRequest)
    ensures r.verb == "GET" && r.url == b.service.url
    ensures r.headers == [("User-Agent", UserAgent)]
  {
    HttpRequest("GET", b.service.url, [("User-Agent", UserAgent)])
  }

  /** The range of status codes the probe counts as a failure. */
  predicate FailureCode(code: int)
  {
    400 <= code <= 511
  }

  /** `RequestBackend.check`, given the outcome of sending `Request(b)`. */
  function Check(b: RequestBackend, outcome: RequestOutcome): (r: Result<ProbeResult, ProbeError>)
    ensures !outcome.Responded? ==> r == Success(ProbeResult(false, None, None, None))
    ensures outcome.Responded? ==> (r.Success? <==> outcome.response.peerCertNotAfter.Some?)
    ensures outcome.Responded? && r.Success? ==>
      && r.value.healthy == !FailureCode(outcome.response.statusCode)
      && r.value.statusCode == Some(outcome.response.statusCode)
      && r.value.ttfb == Some(outcome.response.elapsed)
      && r.value.expireDate == outcome.response.peerCertNotAfter
    ensures r.Success? && r.value.healthy ==> r.value.statusCode.Some? && r.value.ttfb.Some?
  {
    match outcome
    case HttpError => Success(ProbeResult(false, None, None, None))
    case CertVerificationError => Success(ProbeResult(false, None, None, None))
    case Responded(response) =>
      match response.peerCertNotAfter
      case None => Failure(NoTlsObject)
      case Some(notAfter) =>
        var failing := FailureCode(response.statusCode);
        Success(ProbeResult(!failing, Some(response.elapsed), Some(notAfter), Some(response.statusCode)))
  }

  /** Sample verdicts: redirects, informational codes and codes above 511 are healthy;
      every client error and the server errors up to 511 are not. */
  lemma CheckVerdicts(b: RequestBackend, elapsed: Float, notAfter: DateTime)
    ensures forall code :: code in {200, 301, 399, 512, 999} ==>
      Check(b, Responded(HttpResponse(code, elapsed, Some(notAfter)))).value.healthy
    ensures forall code :: code in {400, 404, 500, 511} ==>
      !Check(b, Responded(HttpResponse(code, elapsed, Some(notAfter)))).value.healthy
  {
  }
}
