/** The service record of models/service.py: the three-valued status enum, the dataclass
    with its defaults, `to_dict` (with `service_asdict_factory`) and `__str__`. */
module Services {
  import opened Wrappers
  import opened Text
  import opened Clock

  datatype Status = Unknown | Healthy | Unhealthy

  /** `ServiceStatus.X.value`. */
  function StatusValue(s: Status): string
  {
    match s
    case Unknown => "unknown"
    case Healthy => "healthy"
    case Unhealthy => "unhealthy"
  }

  /** `ServiceStatus(v)`: the member whose value is `v`; `None` stands for the
      `ValueError` raised for any other string. */
  function StatusFromValue(v: string): (r: Option<Status>)
    ensures r.Some? ==> StatusValue(r.value) == v
  {
    if v == "unknown" then Some(Unknown)
    else if v == "healthy" then Some(Healthy)
    else if v == "unhealthy" then Some(Unhealthy)
    else None
  }

  /** Decoding inverts encoding, and only the three enum values decode: the encoding
      is a bijection between the statuses and {"unknown", "healthy", "unhealthy"}. */
  lemma StatusRoundTrip(s: Status, v: string)
    ensures StatusFromValue(StatusValue(s)) == Some(s)
    ensures StatusFromValue(v).Some? <==> v in {"unknown", "healthy", "unhealthy"}
    ensures StatusValue(s) == v ==> StatusFromValue(v) == Some(s)
  {
  }

  /** A Python float (`time_to_first_byte`), carried without interpretation. */
  type Float = real

  /** The `Service` dataclass. */
  datatype Service = Service(
    name: string,
    url: string,
    enabled: bool,
    lastTimeHealthy: Option<DateTime>,
    lastHttpResponseStatusCode: Option<int>,
    timeToFirstByte: Option<Float>,
    status: Status,
    expireDate: Option<DateTime>)

  /** `Service(name, url)`: every other field takes its declared default. */
  function NewService(name: string, url: string): (s: Service)
    ensures s.name == name && s.url == url
    ensures s.enabled && s.status == Unknown
    ensures s.lastTimeHealthy == None && s.lastHttpResponseStatusCode == None && s.expireDate == None
    ensures s.timeToFirstByte == Some(0.0)
  {
    Service(name, url, true, None, None, Some(0.0), Unknown, None)
  }

  /** The timestamps a service holds are real calendar instants. */
  predicate ValidService(s: Service)
  {
    (s.lastTimeHealthy.Some? ==> Valid(s.lastTimeHealthy.value))
    && (s.expireDate.Some? ==> Valid(s.expireDate.value))
  }

  /** A JSON object member holding a string or null, or absent from the object. */
  datatype Slot = Absent | Null | Chars(text: string)

  /** One stored service: the JSON object `to_dict` produces, member by member. */
  datatype Record = Record(
    name: string,
    url: string,
    enabled: bool,
    lastTimeHealthy: Slot,
    lastHttpResponseStatusCode: Option<int>,
    timeToFirstByte: Option<Float>,
    status: Slot,
    expireDate: Slot)

  /** `convert_value` on an optional datetime: a datetime becomes its storage string,
      `None` passes through as null. */
  function DateSlot(d: Option<DateTime>): (r: Slot)
    ensures r != Absent
    ensures r.Null? <==> d.None?
  {
    match d
    case None => Null
    case Some(t) => Chars(Encode(t))
  }

  /** `to_dict()`: the status becomes its value, datetimes their storage strings, and the
      other five fields pass through unchanged. */
  function ToDict(s: Service): (r: Record)
    ensures r.status == Chars(StatusValue(s.status))
    ensures r.lastTimeHealthy.Chars? <==> s.lastTimeHealthy.Some?
    ensures r.expireDate.Chars? <==> s.expireDate.Some?
    ensures r.name == s.name && r.url == s.url && r.enabled == s.enabled
    ensures r.lastHttpResponseStatusCode == s.lastHttpResponseStatusCode
    ensures r.timeToFirstByte == s.timeToFirstByte
  {
    Record(s.name, s.url, s.enabled, DateSlot(s.lastTimeHealthy), s.lastHttpResponseStatusCode,
           s.timeToFirstByte, Chars(StatusValue(s.status)), DateSlot(s.expireDate))
  }

  /** `str(service)` and `repr(service)`: `name <url>`. */
  function Str(s: Service): (r: string)
    ensures |r| == |s.name| + |s.url| + 3
    ensures StartsWith(r, s.name + " <") && EndsWith(r, s.url + ">")
  {
    s.name + " <" + s.url + ">"
  }

  /** What both listings answer for a chat with no stored service. */
  const NothingToSee: string := "There is nothing to see here"

  /** The status code as an f-string shows it: the number, or `None`. */
  function CodeText(code: Option<int>): (r: string)
    ensures code.None? <==> r == "None"
  {
    match code
    case None => "None"
    case Some(c) => IntToString(c)
  }

  /** The probe a service is checked with: always an HTTP request backend over it. */
  datatype RequestBackend = RequestBackend(service: Service)

  /** The `healthcheck_backend` property. */
  function HealthcheckBackend(s: Service): (b: RequestBackend)
    ensures b.service == s
  {
    RequestBackend(s)
  }
}
