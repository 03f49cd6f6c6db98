/** The older probes of backends.py: a raw TCP connect and a plain `requests.get`, each
    reduced to a verdict over an abstract outcome, and the URL the request probe builds. */
module LegacyProbes {
  import opened Text

  /** The service shape of models.py that these probes read. */
  datatype LegacyService = LegacyService(serviceType: string, name: string, domain: string, port: int, enabled: bool)

  /** What `socket.connect_ex((domain, port))` did: returned an error number (0 for
      success), or raised `socket.error` or `socket.timeout`. */
  datatype ConnectOutcome = Connected(errno: int) | SocketError | SocketTimeout

  /** `SocketBackend.check`: healthy exactly when `connect_ex` returned 0; a raised
      error or timeout is an unhealthy verdict, never an exception. */
  function SocketCheck(outcome: ConnectOutcome): (healthy: bool)
    ensures healthy <==> outcome == Connected(0)
  {
    match outcome
    case Connected(errno) => errno == 0
    case SocketError => false
    case SocketTimeout => false
  }

  function Scheme(port: int): string
  {
    if port == 443 then "https" else "http"
  }

  /** `RequestBackend._get_url`: `https` only for port 443, and the port is always
      written out, even when it is the scheme's default. */
  function GetUrl(s: LegacyService): (url: string)
    ensures StartsWith(url, "https://") <==> s.port == 443
    ensures !StartsWith(url, "https://") ==> StartsWith(url, "http://")
    ensures EndsWith(url, "://" + s.domain + ":" + IntToString(s.port))
    ensures |url| == |Scheme(s.port)| + 4 + |s.domain| + |IntToString(s.port)|
  {
    var url := Scheme(s.port) + "://" + s.domain + ":" + IntToString(s.port);
    assert url == Scheme(s.port) + ("://" + s.domain + ":" + IntToString(s.port));
    assert s.port != 443 ==> url[4] == ':';
    url
  }

  /** What `requests.get(url, timeout=...)` did. */
  datatype GetOutcome = RequestException | Answered(statusCode: int)

  /** `RequestBackend.check`: healthy exactly when a response came back with a code
      below 400. */
  function RequestCheck(outcome: GetOutcome): (healthy: bool)
    ensures healthy <==> outcome.Answered? && outcome.statusCode < 400
  {
    match outcome
    case RequestException => false
    case Answered(code) => code < 400
  }
}
