/** The command handlers of commands/handlers.py: the per-chat reconcile cycle, the
    all-chats merge, add/remove delegation and the service listing. The probes' network
    outcomes and the clock are inputs indexed by the position of the service in the
    active list. */
module Handlers {
  import opened Wrappers
  import opened Seqs
  import opened Text
  import opened Clock
  import opened Services
  import opened Probes
  import opened Persistence
  import opened Repository
  import opened Summaries

  /** What aborts a chat's cycle: the load raising, or a check raising inside `gather`. */
  datatype CycleError = LoadFailed(load: LoadError) | ProbeFailed(probe: ProbeError)

  /** `asyncio.gather` over the checks of the active services: the results come back in the
      order of the services, and an exception raised by any check propagates. */
  function Gather(active: seq<Service>, network: nat -> RequestOutcome): (r: Result<seq<ProbeResult>, ProbeError>)
    ensures r.Success? <==> forall i :: 0 <= i < |active| ==> Check(HealthcheckBackend(active[i]), network(i)).Success?
    ensures r.Success? ==> |r.value| == |active|
    ensures r.Success? ==> forall i :: 0 <= i < |active| ==> Check(HealthcheckBackend(active[i]), network(i)) == Success(r.value[i])
  {
    if forall i :: 0 <= i < |active| ==> Check(HealthcheckBackend(active[i]), network(i)).Success? then
      Success(seq(|active|, i requires 0 <= i < |active| => Check(HealthcheckBackend(active[i]), network(i)).value))
    else
      Failure(NoTlsObject)
  }

  /** The UTC time read for the service at position `i`, without its microseconds. */
  function Now(clock: nat -> DateTime, i: nat): (d: DateTime)
    ensures d.microsecond == 0
    ensures Valid(clock(i)) ==> Valid(d)
  {
    Truncate(clock(i))
  }

  /** The probe says unhealthy and the service was not already UNHEALTHY. */
  predicate GoesDown(s: Service, p: ProbeResult)
  {
    !p.healthy && s.status != Unhealthy
  }

  /** The probe says healthy and the service was not already HEALTHY. */
  predicate ComesUp(s: Service, p: ProbeResult)
  {
    p.healthy && s.status != Healthy
  }

  /** One iteration of the reconcile loop on a service: its state after the probe. */
  function Reconcile(s: Service, p: ProbeResult, now: DateTime): (r: Service)
    ensures r.status == (if p.healthy then Healthy else Unhealthy)
    ensures r.lastHttpResponseStatusCode == p.statusCode
    ensures r.name == s.name && r.url == s.url && r.enabled == s.enabled
    ensures p.healthy ==>
      r.lastTimeHealthy == Some(now) && r.timeToFirstByte == p.ttfb && r.expireDate == p.expireDate
    ensures !p.healthy ==>
      r.lastTimeHealthy == s.lastTimeHealthy && r.timeToFirstByte == s.timeToFirstByte && r.expireDate == s.expireDate
  {
    if p.healthy then
      s.(status := Healthy, lastTimeHealthy := Some(now), timeToFirstByte := p.ttfb,
         expireDate := p.expireDate, lastHttpResponseStatusCode := p.statusCode)
    else
      s.(status := Unhealthy, lastHttpResponseStatusCode := p.statusCode)
  }

  /** Every active service after the cycle, in active order. */
  function Reconciled(active: seq<Service>, probes: seq<ProbeResult>, clock: nat -> DateTime): (r: seq<Service>)
    requires |probes| == |active|
    ensures |r| == |active|
    ensures forall i :: 0 <= i < |active| ==> r[i] == Reconcile(active[i], probes[i], Now(clock, i))
  {
    seq(|active|, i requires 0 <= i < |active| => Reconcile(active[i], probes[i], Now(clock, i)))
  }

  function DownFlags(active: seq<Service>, probes: seq<ProbeResult>): (r: seq<bool>)
    requires |probes| == |active|
    ensures |r| == |active| && forall i :: 0 <= i < |active| ==> (r[i] <==> GoesDown(active[i], probes[i]))
  {
    seq(|active|, i requires 0 <= i < |active| => GoesDown(active[i], probes[i]))
  }

  function UpFlags(active: seq<Service>, probes: seq<ProbeResult>): (r: seq<bool>)
    requires |probes| == |active|
    ensures |r| == |active| && forall i :: 0 <= i < |active| ==> (r[i] <==> ComesUp(active[i], probes[i]))
  {
    seq(|active|, i requires 0 <= i < |active| => ComesUp(active[i], probes[i]))
  }

  /** The `time_down` entry a recovering service contributes: now minus its previous
      `last_time_healthy`, both without microseconds; none when there was no such time. */
  function TimeDownOf(s: Service, p: ProbeResult, now: DateTime): (r: Option<Duration>)
    ensures r.Some? <==> ComesUp(s, p) && s.lastTimeHealthy.Some?
  {
    if ComesUp(s, p) && s.lastTimeHealthy.Some? then Some(Between(now, Truncate(s.lastTimeHealthy.value)))
    else None
  }

  /** Each active service's `time_down` contribution, in order. */
  function Downs(active: seq<Service>, probes: seq<ProbeResult>, clock: nat -> DateTime): (r: seq<Option<Duration>>)
    requires |probes| == |active|
    ensures |r| == |active| && forall i :: 0 <= i < |active| ==> r[i] == TimeDownOf(active[i], probes[i], Now(clock, i))
  {
    seq(|active|, i requires 0 <= i < |active| => TimeDownOf(active[i], probes[i], Now(clock, i)))
  }

  /** The `time_down` dict of a cycle; a later service with the same name overwrites an
      earlier one. */
  function TimeDowns(active: seq<Service>, probes: seq<ProbeResult>, clock: nat -> DateTime): map<string, Duration>
    requires |probes| == |active|
  {
    Collect(Names(active), Downs(active, probes, clock))
  }

  /** The summary of a cycle: the services that went down, those that came back, and the
      time each recovered service was down. */
  function CycleSummary(active: seq<Service>, probes: seq<ProbeResult>, clock: nat -> DateTime): Summary
    requires |probes| == |active|
  {
    var final := Reconciled(active, probes, clock);
    Summary(Select(final, DownFlags(active, probes)), Select(final, UpFlags(active, probes)),
            TimeDowns(active, probes, clock))
  }

  /** The handler's result: `{chat_id: summary}` when a list is non-empty, `{}` otherwise. */
  function Report(active: seq<Service>, probes: seq<ProbeResult>, clock: nat -> DateTime): Option<Summary>
    requires |probes| == |active|
  {
    var summary := CycleSummary(active, probes, clock);
    if summary.unhealthy != [] || summary.healthy != [] then Some(summary) else None
  }

  /** `chat_service_checker_command_handler` on a chat whose file holds `records`. */
  function ChatCycle(records: seq<Record>, network: nat -> RequestOutcome, clock: nat -> DateTime): Result<Option<Summary>, CycleError>
  {
    match DecodeAll(records)
    case Failure(e) => Failure(LoadFailed(e))
    case Success(all) =>
      var active := Active(all);
      match Gather(active, network)
      case Failure(e) => Failure(ProbeFailed(e))
      case Success(probes) => Success(Report(active, probes, clock))
  }

  /** The writes of that cycle: one `update` of every active service's record, in active
      order, unless the cycle was aborted first. */
  function CycleWrites(records: seq<Record>, network: nat -> RequestOutcome, clock: nat -> DateTime): seq<Write>
  {
    match DecodeAll(records)
    case Failure(_) => []
    case Success(all) =>
      var active := Active(all);
      match Gather(active, network)
      case Failure(_) => []
      case Success(probes) => [BulkUpdate(Records(Reconciled(active, probes, clock)))]
  }

  /** `chat_service_checker_command_handler(chat_id)` on the chat's store. */
  method ChatServiceChecker(store: Store, network: nat -> RequestOutcome, clock: nat -> DateTime)
    returns (r: Result<Option<Summary>, CycleError>)
    requires store.Valid()
    modifies store
    ensures store.Valid() && store.fileExists && store.records == old(store.records)
    ensures r == ChatCycle(old(store.records), network, clock)
    ensures store.writes == old(store.writes) + CycleWrites(old(store.records), network, clock)
  {
    var repository := new ServiceRepository(store);
    var fetched := repository.FetchActive();
    if fetched.Failure? {
      return Failure(LoadFailed(fetched.error));
    }
    var active := fetched.value;
    var gathered := Gather(active, network);
    if gathered.Failure? {
      return Failure(ProbeFailed(gathered.error));
    }
    var responses := gathered.value;
    var services, summary := ReconcileAll(active, responses, clock);
    repository.Update(services);
    if summary.unhealthy != [] || summary.healthy != [] {
      r := Success(Some(summary));
    } else {
      r := Success(None);
    }
  }

  /** The loop of `chat_service_checker_command_handler` over the active services and
      their probe results: the records to write back and the summary. */
  method ReconcileAll(active: seq<Service>, responses: seq<ProbeResult>, clock: nat -> DateTime)
    returns (services: seq<Record>, summary: Summary)
    requires |responses| == |active|
    ensures services == Records(Reconciled(active, responses, clock))
    ensures summary == CycleSummary(active, responses, clock)
  {
    var unhealthy: seq<Service> := [];
    var healthy: seq<Service> := [];
    var timeDown: map<string, Duration> := map[];
    services := [];
    ReconcilingStart(active, responses, clock);
    var i := 0;
    while i < |active|
      invariant i <= |active|
      invariant Reconciling(active, responses, clock, i, services, Summary(unhealthy, healthy, timeDown))
    {
      ghost var acc := Summary(unhealthy, healthy, timeDown);
      var service := active[i];
      var p := responses[i];
      var initial := service.status;
      service := service.(lastHttpResponseStatusCode := p.statusCode);
      // The lists hold the service object itself, so what they show is its state at the
      // end of the iteration; appending that state is the same.
      if !p.healthy {
        service := service.(status := Unhealthy);
        if initial != Unhealthy {
          unhealthy := unhealthy + [service];
        }
      } else {
        service := service.(status := Healthy);
        var now := Truncate(clock(i));
        if initial != Healthy && service.lastTimeHealthy.Some? {
          timeDown := timeDown[service.name := Between(now, Truncate(service.lastTimeHealthy.value))];
        }
        service := service.(lastTimeHealthy := Some(now), timeToFirstByte := p.ttfb,
                            expireDate := p.expireDate, lastHttpResponseStatusCode := p.statusCode);
        if initial != Healthy {
          healthy := healthy + [service];
        }
      }
      ReconcilingStep(active, responses, clock, i, services, acc, service, Summary(unhealthy, healthy, timeDown));
      services := services + [ToDict(service)];
      i := i + 1;
    }
    ReconcilingEnd(active, responses, clock, services, Summary(unhealthy, healthy, timeDown));
    summary := Summary(unhealthy, healthy, timeDown);
  }

  /** The reconcile loop's state after the first `i` services: the records of their new
      states, those of them that went down or came back, and their `time_down` entries. */
  ghost predicate Reconciling(active: seq<Service>, probes: seq<ProbeResult>, clock: nat -> DateTime, i: nat,
                              services: seq<Record>, acc: Summary)
  {
    && |probes| == |active| && i <= |active|
    && var final := Reconciled(active, probes, clock);
       && services == Records(final[..i])
       && acc.unhealthy == Select(final[..i], DownFlags(active, probes)[..i])
       && acc.healthy == Select(final[..i], UpFlags(active, probes)[..i])
       && acc.timeDown == Collect(Names(active)[..i], Downs(active, probes, clock)[..i])
  }

  lemma ReconcilingStart(active: seq<Service>, probes: seq<ProbeResult>, clock: nat -> DateTime)
    requires |probes| == |active|
    ensures Reconciling(active, probes, clock, 0, [], Summary([], [], map[]))
  {
    var final := Reconciled(active, probes, clock);
    assert final[..0] == [] && Names(active)[..0] == [];
  }

  /** One iteration adds the service's new state to the records, to the unhealthy list when
      it went down, to the healthy list when it came back, and its downtime to the dict. */
  lemma ReconcilingStep(active: seq<Service>, probes: seq<ProbeResult>, clock: nat -> DateTime, i: nat,
                        services: seq<Record>, acc: Summary, service: Service, acc': Summary)
    requires Reconciling(active, probes, clock, i, services, acc) && i < |active|
    requires service == Reconcile(active[i], probes[i], Now(clock, i))
    requires acc'.unhealthy == acc.unhealthy + (if GoesDown(active[i], probes[i]) then [service] else [])
    requires acc'.healthy == acc.healthy + (if ComesUp(active[i], probes[i]) then [service] else [])
    requires acc'.timeDown == match TimeDownOf(active[i], probes[i], Now(clock, i))
                              case None => acc.timeDown
                              case Some(d) => acc.timeDown[active[i].name := d]
    ensures Reconciling(active, probes, clock, i + 1, services + [ToDict(service)], acc')
  {
    var final := Reconciled(active, probes, clock);
    CollectStep(Names(active), Downs(active, probes, clock), i);
    SelectStep(final, DownFlags(active, probes), i);
    SelectStep(final, UpFlags(active, probes), i);
    TakeSnoc(final, i);
    assert Records(final[..i + 1]) == Records(final[..i]) + [ToDict(final[i])];
  }

  /** After every service the loop's state is the cycle's records and summary. */
  lemma ReconcilingEnd(active: seq<Service>, probes: seq<ProbeResult>, clock: nat -> DateTime,
                       services: seq<Record>, acc: Summary)
    requires Reconciling(active, probes, clock, |active|, services, acc)
    ensures services == Records(Reconciled(active, probes, clock))
    ensures acc == CycleSummary(active, probes, clock)
  {
    var final := Reconciled(active, probes, clock);
    TakeAll(final);
    TakeAll(Names(active));
    TakeAll(Downs(active, probes, clock));
    TakeAll(DownFlags(active, probes));
    TakeAll(UpFlags(active, probes));
  }

  /** A chat is reported exactly when some active service went down or came back. */
  lemma ReportIffTransition(active: seq<Service>, probes: seq<ProbeResult>, clock: nat -> DateTime)
    requires |probes| == |active|
    ensures Report(active, probes, clock).Some? <==>
      exists i :: 0 <= i < |active| && (GoesDown(active[i], probes[i]) || ComesUp(active[i], probes[i]))
  {
    var final := Reconciled(active, probes, clock);
    var down := DownFlags(active, probes);
    var up := UpFlags(active, probes);
    SelectEmpty(final, down);
    SelectEmpty(final, up);
    if exists i :: 0 <= i < |active| && (GoesDown(active[i], probes[i]) || ComesUp(active[i], probes[i])) {
      var i :| 0 <= i < |active| && (GoesDown(active[i], probes[i]) || ComesUp(active[i], probes[i]));
      assert down[i] || up[i];
    }
  }

  /** The unhealthy list holds, in active order, exactly the services that went down, and
      the healthy list exactly those that came back, each in its state after the cycle. */
  lemma SummaryMembers(active: seq<Service>, probes: seq<ProbeResult>, clock: nat -> DateTime, s: Service)
    requires |probes| == |active|
    ensures s in CycleSummary(active, probes, clock).unhealthy <==>
      exists i :: 0 <= i < |active| && GoesDown(active[i], probes[i]) && Reconcile(active[i], probes[i], Now(clock, i)) == s
    ensures s in CycleSummary(active, probes, clock).healthy <==>
      exists i :: 0 <= i < |active| && ComesUp(active[i], probes[i]) && Reconcile(active[i], probes[i], Now(clock, i)) == s
    ensures s in CycleSummary(active, probes, clock).unhealthy ==> s.status == Unhealthy
    ensures s in CycleSummary(active, probes, clock).healthy ==> s.status == Healthy
  {
    var final := Reconciled(active, probes, clock);
    SelectMember(final, DownFlags(active, probes), s);
    SelectMember(final, UpFlags(active, probes), s);
  }

  /** `time_down` has a key exactly for the names of services that came back with a
      previous `last_time_healthy`, and each value is such a service's downtime. */
  lemma TimeDownKeys(active: seq<Service>, probes: seq<ProbeResult>, clock: nat -> DateTime, name: string)
    requires |probes| == |active|
    ensures name in TimeDowns(active, probes, clock) <==>
      exists i :: 0 <= i < |active| && active[i].name == name && ComesUp(active[i], probes[i])
        && active[i].lastTimeHealthy.Some?
    ensures name in TimeDowns(active, probes, clock) ==>
      exists i :: 0 <= i < |active| && active[i].name == name
        && TimeDownOf(active[i], probes[i], Now(clock, i)) == Some(TimeDowns(active, probes, clock)[name])
  {
    var names, downs := Names(active), Downs(active, probes, clock);
    if name in TimeDowns(active, probes, clock) {
      CollectValue(names, downs, name);
    }
    forall i | 0 <= i < |active| && active[i].name == name && ComesUp(active[i], probes[i])
        && active[i].lastTimeHealthy.Some?
      ensures name in TimeDowns(active, probes, clock)
    {
      CollectHas(names, downs, i);
    }
  }

  /** A downtime is not negative when the clock reads no earlier than the stored last
      healthy time; nothing orders the two, so a clock set back gives a negative one. */
  lemma TimeDownNonNegative(s: Service, p: ProbeResult, now: DateTime)
    requires ComesUp(s, p) && s.lastTimeHealthy.Some?
    requires Valid(now) && Valid(s.lastTimeHealthy.value) && NotAfter(s.lastTimeHealthy.value, now)
    ensures TimeDownOf(s, p, now).value.seconds >= 0
  {
    BetweenNonNegative(Truncate(s.lastTimeHealthy.value), now);
  }

  /** Running the cycle again on its own result with the same verdicts reports nothing:
      a sustained outage or a sustained recovery is announced once. */
  lemma SecondCycleQuiet(active: seq<Service>, probes: seq<ProbeResult>, clock: nat -> DateTime,
                         again: seq<ProbeResult>, clock': nat -> DateTime)
    requires |probes| == |active| && |again| == |active|
    requires forall i :: 0 <= i < |active| ==> again[i].healthy == probes[i].healthy
    ensures Report(Reconciled(active, probes, clock), again, clock') == None
  {
    var final := Reconciled(active, probes, clock);
    forall i | 0 <= i < |final|
      ensures !GoesDown(final[i], again[i]) && !ComesUp(final[i], again[i])
    {
    }
    ReportIffTransition(final, again, clock');
  }

  /** The records a cycle writes load back as the services they were written from. */
  lemma WrittenRecordsLoad(active: seq<Service>, probes: seq<ProbeResult>, clock: nat -> DateTime)
    requires |probes| == |active|
    requires forall i :: 0 <= i < |active| ==> ValidService(active[i])
    requires forall i :: 0 <= i < |active| ==> Valid(clock(i))
    requires forall i :: 0 <= i < |active| && probes[i].expireDate.Some? ==> Valid(probes[i].expireDate.value)
    ensures DecodeAll(Records(Reconciled(active, probes, clock))) == Success(Reconciled(active, probes, clock))
  {
    var final := Reconciled(active, probes, clock);
    forall i | 0 <= i < |final| ensures ValidService(final[i]) {
      assert Valid(Now(clock, i));
    }
    DecodeAllToDict(final);
  }

  /** A cycle that is not aborted writes once, even with no active service, one record per
      active service; an aborted one writes nothing. */
  lemma CycleWritesOnce(records: seq<Record>, network: nat -> RequestOutcome, clock: nat -> DateTime)
    ensures ChatCycle(records, network, clock).Success? <==> |CycleWrites(records, network, clock)| == 1
    ensures ChatCycle(records, network, clock).Failure? <==> CycleWrites(records, network, clock) == []
    ensures ChatCycle(records, network, clock).Success? ==>
      CycleWrites(records, network, clock)[0].BulkUpdate?
      && |CycleWrites(records, network, clock)[0].records| == |Active(DecodeAll(records).value)|
  {
  }

  /** One chat's cycle within the all-chats run. */
  function Cycle(files: map<string, seq<Record>>, chatId: string, network: string -> nat -> RequestOutcome,
                 clock: string -> nat -> DateTime): Result<Option<Summary>, CycleError>
  {
    ChatCycle(StoredRecords(files, chatId), network(chatId), clock(chatId))
  }

  /** Every listed chat's cycle, in listing order. */
  function Cycles(chatIds: seq<string>, files: map<string, seq<Record>>, network: string -> nat -> RequestOutcome,
                  clock: string -> nat -> DateTime): (r: seq<Result<Option<Summary>, CycleError>>)
    ensures |r| == |chatIds|
    ensures forall j :: 0 <= j < |chatIds| ==> r[j] == Cycle(files, chatIds[j], network, clock)
  {
    seq(|chatIds|, j requires 0 <= j < |chatIds| => Cycle(files, chatIds[j], network, clock))
  }

  /** The writes each listed chat's cycle makes. */
  function CyclesWrites(chatIds: seq<string>, files: map<string, seq<Record>>, network: string -> nat -> RequestOutcome,
                        clock: string -> nat -> DateTime): (r: seq<seq<Write>>)
    ensures |r| == |chatIds|
    ensures forall j :: 0 <= j < |chatIds| ==>
      r[j] == CycleWrites(StoredRecords(files, chatIds[j]), network(chatIds[j]), clock(chatIds[j]))
  {
    seq(|chatIds|, j requires 0 <= j < |chatIds| =>
      CycleWrites(StoredRecords(files, chatIds[j]), network(chatIds[j]), clock(chatIds[j])))
  }

  /** `chat_services_checker_command_handler`: one store per listed chat id, checked in
      listing order, the results merged into one dict. */
  method ChatServicesChecker(listing: seq<DirEntry>, files: map<string, seq<Record>>,
                             network: string -> nat -> RequestOutcome, clock: string -> nat -> DateTime)
    returns (r: Result<Reports, CycleError>, written: seq<(string, Write)>)
    ensures var ids := ChatIds(listing);
      r == Sweep(ids, Cycles(ids, files, network, clock))
    ensures var ids := ChatIds(listing);
      written == SweepWrites(ids, Cycles(ids, files, network, clock), CyclesWrites(ids, files, network, clock))
  {
    r, written := CheckChats(ChatIds(listing), files, network, clock);
  }

  /** The loop over the chat ids. */
  method CheckChats(chatIds: seq<string>, files: map<string, seq<Record>>, network: string -> nat -> RequestOutcome, clock: string -> nat -> DateTime)
    returns (r: Result<Reports, CycleError>, written: seq<(string, Write)>)
    ensures r == Sweep(chatIds, Cycles(chatIds, files, network, clock))
    ensures written == SweepWrites(chatIds, Cycles(chatIds, files, network, clock), CyclesWrites(chatIds, files, network, clock))
  {
    ghost var cycles := Cycles(chatIds, files, network, clock);
    ghost var writes := CyclesWrites(chatIds, files, network, clock);
    var reports: Reports := [];
    written := [];
    SweptStart(chatIds, cycles, writes);
    var i := 0;
    while i < |chatIds|
      invariant i <= |chatIds|
      invariant Swept(chatIds, cycles, writes, i, reports, written)
    {
      var chatId := chatIds[i];
      var fetched, chatWrites := CheckChat(files, chatId, network, clock);
      SweepIteration(chatIds, cycles, writes, i, reports, written, fetched, chatWrites);
      written := written + Tagged(chatId, chatWrites);
      if fetched.Failure? {
        return Failure(fetched.error), written;
      }
      reports := Merge(reports, chatId, fetched.value);
      i := i + 1;
    }
    SweptEnd(chatIds, cycles, writes, reports, written);
    r := Success(reports);
  }

  /** The handler's call for one chat id: the store `create(chat_id)` opens on the chat's
      file, then the chat's cycle on it; the store's writes are returned. */
  method CheckChat(files: map<string, seq<Record>>, chatId: string, network: string -> nat -> RequestOutcome, clock: string -> nat -> DateTime)
    returns (r: Result<Option<Summary>, CycleError>, written: seq<Write>)
    ensures r == Cycle(files, chatId, network, clock)
    ensures written == CycleWrites(StoredRecords(files, chatId), network(chatId), clock(chatId))
  {
    var store := new Store.Create(chatId, OnDisk(files, chatId));
    r := ChatServiceChecker(store, network(chatId), clock(chatId));
    written := store.writes;
  }

  /** `add_service_command_handler`: one repository over the chat's store, one `add`. */
  method AddService(store: Store, name: string, url: string) returns (s: Service)
    requires store.Valid()
    modifies store
    ensures s == NewService(name, url)
    ensures store.Valid() && store.records == old(store.records) + [ToDict(s)]
    ensures store.writes == old(store.writes)
  {
    var repository := new ServiceRepository(store);
    s := repository.Add(name, url);
  }

  /** `remove_services_command_handler`: one repository over the chat's store, one
      `remove`; the reload inside `remove` can still raise. */
  method RemoveService(name: string, store: Store) returns (r: Result<(), LoadError>)
    requires store.Valid()
    modifies store
    ensures store.Valid() && store.records == RemoveNamed(old(store.records), name)
    ensures store.writes == old(store.writes)
    ensures r.Success? <==> DecodeAll(store.records).Success?
  {
    var repository := new ServiceRepository(store);
    r := repository.Remove(name);
  }


  /** The line after the status code: the time to first byte for a HEALTHY service that
      has one, the last healthy time for an UNHEALTHY service that has one, else nothing. */
  function DetailLine(s: Service, showFloat: Float -> string): (r: string)
    ensures r != "" <==>
      (s.status == Healthy && s.timeToFirstByte.Some?) || (s.status == Unhealthy && s.lastTimeHealthy.Some?)
    ensures s.status == Healthy && s.timeToFirstByte.Some? ==>
      StartsWith(r, "\nttfb: `") && EndsWith(r, showFloat(s.timeToFirstByte.value) + "`")
    ensures s.status == Unhealthy && s.lastTimeHealthy.Some? ==>
      StartsWith(r, "\nLast time healthy: `") && EndsWith(r, DayFirstText(s.lastTimeHealthy.value) + "`")
  {
    if s.status == Healthy && s.timeToFirstByte.Some? then
      var shown := showFloat(s.timeToFirstByte.value) + "`";
      Joined("\nttfb: `", shown);
      "\nttfb: `" + shown
    else if s.status == Unhealthy && s.lastTimeHealthy.Some? then
      var shown := DayFirstText(s.lastTimeHealthy.value) + "`";
      Joined("\nLast time healthy: `", shown);
      "\nLast time healthy: `" + shown
    else ""
  }

  /** The certificate line, present exactly when the service has an expiry date. */
  function CertLine(s: Service): (r: string)
    ensures r != "" <==> s.expireDate.Some?
    ensures s.expireDate.Some? ==>
      StartsWith(r, "\nCert expires: `") && EndsWith(r, DayFirstText(s.expireDate.value) + "`")
  {
    if s.expireDate.Some? then
      var shown := DayFirstText(s.expireDate.value) + "`";
      Joined("\nCert expires: `", shown);
      "\nCert expires: `" + shown
    else ""
  }

  /** The heading of a service's block: its name and upper-cased status, then its last
      status code. */
  function Heading(s: Service): string
  {
    "\n\n`" + s.name + "` is " + Upper(StatusValue(s.status)) + "\nStatus: `" + CodeText(s.lastHttpResponseStatusCode) + "`"
  }

  /** A service's block of the listing. */
  function Block(s: Service, showFloat: Float -> string): string
  {
    Heading(s) + DetailLine(s, showFloat) + CertLine(s)
  }

  /** A block opens with the service's name and status and closes with its certificate
      line. */
  lemma BlockShape(s: Service, showFloat: Float -> string)
    ensures StartsWith(Block(s, showFloat), "\n\n`" + s.name + "` is " + Upper(StatusValue(s.status)))
    ensures EndsWith(Block(s, showFloat), CertLine(s))
  {
    var head := "\n\n`" + s.name + "` is " + Upper(StatusValue(s.status));
    var withStatus := head + "\nStatus: `";
    var withCode := withStatus + CodeText(s.lastHttpResponseStatusCode);
    var front := Heading(s) + DetailLine(s, showFloat);
    Joined(head, "\nStatus: `");
    Joined(withStatus, CodeText(s.lastHttpResponseStatusCode));
    StartsWithTrans(withCode, withStatus, head);
    Joined(withCode, "`");
    StartsWithTrans(Heading(s), withCode, head);
    Joined(Heading(s), DetailLine(s, showFloat));
    StartsWithTrans(front, Heading(s), head);
    Joined(front, CertLine(s));
    StartsWithTrans(Block(s, showFloat), front, head);
  }

  /** The blocks of the services, in order. */
  function Blocks(services: seq<Service>, showFloat: Float -> string): (r: seq<string>)
    ensures |r| == |services| && forall i :: 0 <= i < |services| ==> r[i] == Block(services[i], showFloat)
  {
    seq(|services|, i requires 0 <= i < |services| => Block(services[i], showFloat))
  }

  /** `list_services_command_handler`'s text for the stored services. */
  function Listing(services: seq<Service>, showFloat: Float -> string): string
  {
    if services == [] then NothingToSee else Concat(Blocks(services, showFloat))
  }

  /** The listing is the "nothing to see" text exactly when there is no service, and
      otherwise opens with the first service's block. */
  lemma ListingNothingIff(services: seq<Service>, showFloat: Float -> string)
    ensures Listing(services, showFloat) == NothingToSee <==> services == []
    ensures services != [] ==> StartsWith(Listing(services, showFloat), Block(services[0], showFloat))
  {
    if services != [] {
      var s := services[0];
      var text, block := Listing(services, showFloat), Block(s, showFloat);
      ConcatStart(Blocks(services, showFloat));
      BlockShape(s, showFloat);
      FirstChar(block, "\n\n`" + s.name + "` is " + Upper(StatusValue(s.status)));
      FirstChar(text, block);
      assert NothingToSee[0] != text[0];
    }
  }

  /** `list_services_command_handler` on the chat's store: the listing of every stored
      service, or the exception the load raises. */
  method ListServices(store: Store, showFloat: Float -> string) returns (r: Result<string, LoadError>)
    requires store.Valid()
    modifies store
    ensures store.Valid() && store.records == old(store.records) && store.writes == old(store.writes)
    ensures DecodeAll(old(store.records)).Failure? ==> r == Failure(DecodeAll(old(store.records)).error)
    ensures DecodeAll(old(store.records)).Success? ==>
      r == Success(Listing(DecodeAll(old(store.records)).value, showFloat))
  {
    var repository := new ServiceRepository(store);
    var fetched := repository.FetchAll();
    if fetched.Failure? {
      return Failure(fetched.error);
    }
    var all := fetched.value;
    if all == [] {
      return Success(NothingToSee);
    }
    var result := RenderAll(all, showFloat);
    r := Success(result);
  }

  /** The loop of `list_services_command_handler`: a block per service, appended in order. */
  method RenderAll(all: seq<Service>, showFloat: Float -> string) returns (result: string)
    ensures result == Concat(Blocks(all, showFloat))
  {
    result := "";
    var i := 0;
    while i < |all|
      invariant 0 <= i <= |all|
      invariant result == Concat(Blocks(all, showFloat)[..i])
    {
      var service := all[i];
      ghost var before := result;
      // "\n\n", the name and upper-cased status, the status code
      result := result + Heading(service);
      // the ttfb line or the last-healthy line, when there is one
      result := result + DetailLine(service, showFloat);
      // the certificate line, when there is an expiry date
      result := result + CertLine(service);
      AppendThree(before, Heading(service), DetailLine(service, showFloat), CertLine(service));
      ConcatStep(Blocks(all, showFloat), i);
      i := i + 1;
    }
    TakeAll(Blocks(all, showFloat));
  }

}
