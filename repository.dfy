/** `ServiceRepository` of repositories/service_repository.py: decoding stored records into
    services, the active filter, and the writes that go through the persistence backend. */
module Repository {
  import opened Wrappers
  import opened Seqs
  import opened Clock
  import opened Services
  import opened Persistence

  /** The exceptions `fetch_all` lets escape while decoding a record. */
  datatype LoadError =
    | StatusMissing               // `KeyError` from `pop('status')`
    | StatusInvalid(status: Slot) // `ValueError` from `ServiceStatus(...)`
    | TimestampInvalid(text: string) // `ValueError` from `strptime`

  /** `ServiceStatus(service_data.pop('status'))`. */
  function DecodeStatus(slot: Slot): (r: Result<Status, LoadError>)
    ensures r.Success? <==> slot.Chars? && StatusFromValue(slot.text).Some?
  {
    match slot
    case Absent => Failure(StatusMissing)
    case Null => Failure(StatusInvalid(slot))
    case Chars(v) =>
      match StatusFromValue(v)
      case None => Failure(StatusInvalid(slot))
      case Some(s) => Success(s)
  }

  /** The `try: strptime(...) except (TypeError, KeyError)` step: an absent or null value
      stays `None`, a string must parse, and a malformed one is not caught. */
  function DecodeTimestamp(slot: Slot): (r: Result<Option<DateTime>, LoadError>)
    ensures slot.Absent? || slot.Null? ==> r == Success(None)
    ensures slot.Chars? ==> (r.Success? <==> Parse(slot.text).Some?)
    ensures r.Success? && r.value.Some? ==> Valid(r.value.value)
  {
    match slot
    case Absent => Success(None)
    case Null => Success(None)
    case Chars(text) =>
      match Parse(text)
      case None => Failure(TimestampInvalid(text))
      case Some(d) => Success(Some(d))
  }

  /** One iteration of `fetch_all`: `Service(status=..., **service_data)`. */
  function Decode(r: Record): (res: Result<Service, LoadError>)
    ensures res.Success? ==> ValidService(res.value)
    ensures res.Success? ==> res.value.name == r.name && res.value.url == r.url && res.value.enabled == r.enabled
    ensures res.Success? <==>
      DecodeStatus(r.status).Success? && DecodeTimestamp(r.lastTimeHealthy).Success?
      && DecodeTimestamp(r.expireDate).Success?
  {
    match DecodeStatus(r.status)
    case Failure(e) => Failure(e)
    case Success(status) =>
      match DecodeTimestamp(r.lastTimeHealthy)
      case Failure(e) => Failure(e)
      case Success(lastTimeHealthy) =>
        match DecodeTimestamp(r.expireDate)
        case Failure(e) => Failure(e)
        case Success(expireDate) =>
          Success(Service(r.name, r.url, r.enabled, lastTimeHealthy, r.lastHttpResponseStatusCode,
                          r.timeToFirstByte, status, expireDate))
  }

  /** Decoding what `to_dict` wrote gives the service back, field for field. */
  lemma DecodeToDict(s: Service)
    requires ValidService(s)
    ensures Decode(ToDict(s)) == Success(s)
  {
    StatusRoundTrip(s.status, StatusValue(s.status));
    assert DecodeStatus(ToDict(s).status) == Success(s.status);
    DecodeDateSlot(s.lastTimeHealthy);
    DecodeDateSlot(s.expireDate);
  }

  /** A stored datetime, or null, decodes back to what was stored. */
  lemma DecodeDateSlot(d: Option<DateTime>)
    requires d.Some? ==> Valid(d.value)
    ensures DecodeTimestamp(DateSlot(d)) == Success(d)
  {
    if d.Some? {
      ParseEncode(d.value);
    }
  }

  /** A record decodes only when its status is one of the three enum values. */
  lemma DecodeNeedsStatus(r: Record)
    requires Decode(r).Success?
    ensures r.status in {Chars("unknown"), Chars("healthy"), Chars("unhealthy")}
  {
    StatusRoundTrip(Unknown, r.status.text);
  }

  /** `fetch_all`: one service per stored record, in stored order; the first record that
      does not decode aborts the load with its error. */
  function DecodeAll(records: seq<Record>): (r: Result<seq<Service>, LoadError>)
    ensures r.Success? <==> forall i :: 0 <= i < |records| ==> Decode(records[i]).Success?
    ensures r.Success? ==> |r.value| == |records|
    ensures r.Success? ==> forall i :: 0 <= i < |records| ==> Decode(records[i]) == Success(r.value[i])
    decreases |records|
  {
    if |records| == 0 then Success([])
    else
      var n := |records| - 1;
      var prefix := records[..n];
      assert forall i :: 0 <= i < n ==> prefix[i] == records[i];
      match DecodeAll(prefix)
      case Failure(e) => Failure(e)
      case Success(services) =>
        match Decode(records[n])
        case Failure(e) => Failure(e)
        case Success(s) => Success(services + [s])
  }

  /** A failure in a prefix is the failure of the whole load. */
  lemma {:induction false} DecodeAllPrefixFailure(records: seq<Record>, k: nat)
    requires k <= |records| && DecodeAll(records[..k]).Failure?
    ensures DecodeAll(records) == DecodeAll(records[..k])
    decreases |records| - k
  {
    if k < |records| {
      var m := |records| - 1;
      assert records[..m][..k] == records[..k];
      DecodeAllPrefixFailure(records[..m], k);
    } else {
      assert records[..k] == records;
    }
  }

  /** `to_dict()` of each service, in order. */
  function Records(services: seq<Service>): (r: seq<Record>)
    ensures |r| == |services|
    ensures forall i :: 0 <= i < |services| ==> r[i] == ToDict(services[i])
  {
    seq(|services|, i requires 0 <= i < |services| => ToDict(services[i]))
  }

  /** Loading what `to_dict` wrote for a list of services gives that list back. */
  lemma DecodeAllToDict(services: seq<Service>)
    requires forall i :: 0 <= i < |services| ==> ValidService(services[i])
    ensures DecodeAll(Records(services)) == Success(services)
  {
    var records := Records(services);
    forall i | 0 <= i < |services| ensures Decode(records[i]) == Success(services[i]) {
      DecodeToDict(services[i]);
    }
    var r := DecodeAll(records);
    assert r.Success?;
    assert forall i :: 0 <= i < |services| ==> r.value[i] == services[i];
    assert r.value == services;
  }

  function IsEnabled(s: Service): bool
  {
    s.enabled
  }

  /** `fetch_active`: the enabled services, in stored order. */
  function Active(services: seq<Service>): seq<Service>
  {
    Filter(services, IsEnabled)
  }

  /** A service is active exactly when it is stored and enabled; the active list keeps the
      stored order and drops nothing else. */
  lemma ActiveMember(a: seq<Service>, b: seq<Service>, s: Service)
    ensures s in Active(a) <==> s in a && s.enabled
    ensures Active(a + b) == Active(a) + Active(b)
  {
    FilterMember(a, IsEnabled, s);
    FilterAppend(a, b, IsEnabled);
  }

  class ServiceRepository {
    const backend: Store

    constructor (backend: Store)
      ensures this.backend == backend
    {
      this.backend := backend;
    }

    /** `update_service_status`: records the probe time and time to first byte and writes
        the service back through `update`; no other field changes. */
    method UpdateServiceStatus(s: Service, timeToFirstByte: Option<Float>, now: DateTime) returns (updated: Service)
      modifies backend
      ensures updated == s.(lastTimeHealthy := Some(now), timeToFirstByte := timeToFirstByte)
      ensures backend.writes == old(backend.writes) + [UpdateOne(ToDict(updated))]
      ensures backend.fileExists == old(backend.fileExists) && backend.records == old(backend.records)
    {
      updated := s.(lastTimeHealthy := Some(now), timeToFirstByte := timeToFirstByte);
      backend.Update(ToDict(updated));
    }

    /** `mark_as_healthy`: status HEALTHY, written back once. */
    method MarkAsHealthy(s: Service) returns (updated: Service)
      modifies backend
      ensures updated == s.(status := Healthy)
      ensures backend.writes == old(backend.writes) + [UpdateOne(ToDict(updated))]
      ensures backend.fileExists == old(backend.fileExists) && backend.records == old(backend.records)
    {
      updated := s.(status := Healthy);
      backend.Update(ToDict(updated));
    }

    /** `mark_as_unhealthy`: status UNHEALTHY, written back once. */
    method MarkAsUnhealthy(s: Service) returns (updated: Service)
      modifies backend
      ensures updated == s.(status := Unhealthy)
      ensures backend.writes == old(backend.writes) + [UpdateOne(ToDict(updated))]
      ensures backend.fileExists == old(backend.fileExists) && backend.records == old(backend.records)
    {
      updated := s.(status := Unhealthy);
      backend.Update(ToDict(updated));
    }

    /** `update`: the list goes to `bulk_update` unchanged. */
    method Update(records: seq<Record>)
      modifies backend
      ensures backend.writes == old(backend.writes) + [BulkUpdate(records)]
      ensures backend.fileExists == old(backend.fileExists) && backend.records == old(backend.records)
    {
      backend.BulkUpdate(records);
    }

    /** `fetch_all`: decodes the stored records one by one. */
    method FetchAll() returns (r: Result<seq<Service>, LoadError>)
      requires backend.Valid()
      modifies backend
      ensures backend.Valid() && backend.fileExists
      ensures backend.records == old(backend.records) && backend.writes == old(backend.writes)
      ensures r == DecodeAll(old(backend.records))
    {
      var data := backend.FetchAll();
      var services: seq<Service> := [];
      var i := 0;
      while i < |data|
        invariant 0 <= i <= |data|
        invariant DecodeAll(data[..i]) == Success(services)
      {
        assert data[..i + 1][..i] == data[..i];
        match Decode(data[i]) {
          case Failure(e) =>
            DecodeAllPrefixFailure(data, i + 1);
            return Failure(e);
          case Success(s) =>
            services := services + [s];
        }
        i := i + 1;
      }
      assert data[..i] == data;
      r := Success(services);
    }

    /** `fetch_active`: `fetch_all` filtered to the enabled services. */
    method FetchActive() returns (r: Result<seq<Service>, LoadError>)
      requires backend.Valid()
      modifies backend
      ensures backend.Valid() && backend.fileExists
      ensures backend.records == old(backend.records) && backend.writes == old(backend.writes)
      ensures DecodeAll(old(backend.records)).Failure? ==> r == Failure(DecodeAll(old(backend.records)).error)
      ensures DecodeAll(old(backend.records)).Success? ==> r == Success(Active(DecodeAll(old(backend.records)).value))
    {
      var all := FetchAll();
      match all {
        case Failure(e) => r := Failure(e);
        case Success(services) => r := Success(Active(services));
      }
    }

    /** `add`: appends the default record for `name` and `url`; no duplicate check. */
    method Add(name: string, url: string) returns (s: Service)
      requires backend.Valid()
      modifies backend
      ensures s == NewService(name, url)
      ensures backend.Valid() && backend.records == old(backend.records) + [ToDict(s)]
      ensures backend.writes == old(backend.writes)
    {
      s := NewService(name, url);
      backend.Add(ToDict(s));
    }

    /** `remove`: delegates to the backend, then reloads; the reload's exception is the
        only possible failure. */
    method Remove(name: string) returns (r: Result<(), LoadError>)
      requires backend.Valid()
      modifies backend
      ensures backend.Valid() && backend.records == RemoveNamed(old(backend.records), name)
      ensures backend.writes == old(backend.writes)
      ensures r.Success? <==> DecodeAll(backend.records).Success?
    {
      backend.Remove(name);
      var reloaded := FetchAll();
      match reloaded {
        case Failure(e) => r := Failure(e);
        case Success(_) => r := Success(());
      }
    }
  }
}
