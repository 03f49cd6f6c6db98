/** The older command handlers of command_handlers.py: a synchronous reconcile cycle that
    writes each transition through the repository as it happens, the all-chats merge and
    the older listing. The probes, the two clocks it reads, the chats' files and the float formatting are
    inputs. */
module LegacyHandlers {
  import opened Wrappers
  import opened Seqs
  import opened Text
  import opened Clock
  import opened Services
  import opened Persistence
  import opened Repository
  import opened Summaries
  import Handlers
  import Probes

  /** The pair `(service_is_healthy, time_to_first_byte)` the older `check()` returns. */
  datatype LegacyProbe = LegacyProbe(healthy: bool, ttfb: Option<Float>)

  /** What one iteration of the older loop observes from outside: its probe's verdict, the
      time `datetime.utcnow()` gives the downtime and the time `update_service_status`
      stamps. */
  datatype Reading = Reading(probe: LegacyProbe, utcNow: DateTime, now: DateTime)

  predicate GoesDown(s: Service, p: LegacyProbe)
  {
    !p.healthy && s.status != Unhealthy
  }

  predicate ComesUp(s: Service, p: LegacyProbe)
  {
    p.healthy && s.status != Healthy
  }

  /** A service after its iteration: marked UNHEALTHY on a failed probe; on a healthy one
      marked HEALTHY and given the probe time and time to first byte. The status code and
      expiry date are never touched. */
  function Final(s: Service, p: LegacyProbe, now: DateTime): (r: Service)
    ensures r.status == (if p.healthy then Healthy else Unhealthy)
    ensures r.name == s.name && r.url == s.url && r.enabled == s.enabled
    ensures r.lastHttpResponseStatusCode == s.lastHttpResponseStatusCode && r.expireDate == s.expireDate
    ensures p.healthy ==> r.lastTimeHealthy == Some(now) && r.timeToFirstByte == p.ttfb
    ensures !p.healthy ==> r.lastTimeHealthy == s.lastTimeHealthy && r.timeToFirstByte == s.timeToFirstByte
  {
    if p.healthy then s.(status := Healthy, lastTimeHealthy := Some(now), timeToFirstByte := p.ttfb)
    else s.(status := Unhealthy)
  }

  /** The repository writes of one iteration: `mark_as_unhealthy` on a new failure,
      `mark_as_healthy` on a recovery, then `update_service_status` on every healthy probe. */
  function Writes(s: Service, p: LegacyProbe, now: DateTime): seq<Write>
  {
    if !p.healthy then
      if s.status != Unhealthy then [UpdateOne(ToDict(s.(status := Unhealthy)))] else []
    else
      (if s.status != Healthy then [UpdateOne(ToDict(s.(status := Healthy)))] else [])
      + [UpdateOne(ToDict(Final(s, p, now)))]
  }

  /** A sustained outage writes nothing, a new failure writes the service once, marked
      UNHEALTHY; a healthy probe writes once more after a recovery's HEALTHY mark, and its
      last write is always the service's final state. */
  lemma WritesShape(s: Service, p: LegacyProbe, now: DateTime)
    ensures var w := Writes(s, p, now);
      && |w| == (if p.healthy then (if s.status != Healthy then 2 else 1) else (if s.status != Unhealthy then 1 else 0))
      && (|w| > 0 ==> w[|w| - 1] == UpdateOne(ToDict(Final(s, p, now))))
      && (|w| == 2 ==> w[0] == UpdateOne(ToDict(s.(status := Healthy))))
  {
  }

  /** The writes of the first `n` iterations, in order. */
  function WritesUpTo(active: seq<Service>, readings: seq<Reading>, n: nat): seq<Write>
    requires |readings| == |active| && n <= |active|
  {
    if n == 0 then [] else WritesUpTo(active, readings, n - 1) + Writes(active[n - 1], readings[n - 1].probe, readings[n - 1].now)
  }

  lemma WritesStep(active: seq<Service>, readings: seq<Reading>, i: nat)
    requires |readings| == |active| && i < |active|
    ensures WritesUpTo(active, readings, i + 1) == WritesUpTo(active, readings, i) + Writes(active[i], readings[i].probe, readings[i].now)
  {
  }

  function Finals(active: seq<Service>, readings: seq<Reading>): (r: seq<Service>)
    requires |readings| == |active|
    ensures |r| == |active|
    ensures forall i :: 0 <= i < |active| ==> r[i] == Final(active[i], readings[i].probe, readings[i].now)
  {
    seq(|active|, i requires 0 <= i < |active| => Final(active[i], readings[i].probe, readings[i].now))
  }

  function DownFlags(active: seq<Service>, readings: seq<Reading>): (r: seq<bool>)
    requires |readings| == |active|
    ensures |r| == |active| && forall i :: 0 <= i < |active| ==> (r[i] <==> GoesDown(active[i], readings[i].probe))
  {
    seq(|active|, i requires 0 <= i < |active| => GoesDown(active[i], readings[i].probe))
  }

  function UpFlags(active: seq<Service>, readings: seq<Reading>): (r: seq<bool>)
    requires |readings| == |active|
    ensures |r| == |active| && forall i :: 0 <= i < |active| ==> (r[i] <==> ComesUp(active[i], readings[i].probe))
  {
    seq(|active|, i requires 0 <= i < |active| => ComesUp(active[i], readings[i].probe))
  }

  /** A service's `time_down` contribution: for a recovering service with a
      `last_time_healthy` captured before its probe, `utcnow()` minus that time, both
      without microseconds; none otherwise, where the source swallows the `TypeError`. */
  function TimeDownOf(s: Service, p: LegacyProbe, utcNow: DateTime): (r: Option<Duration>)
    ensures r.Some? <==> ComesUp(s, p) && s.lastTimeHealthy.Some?
  {
    if ComesUp(s, p) && s.lastTimeHealthy.Some? then Some(Between(Truncate(utcNow), Truncate(s.lastTimeHealthy.value)))
    else None
  }

  /** A downtime is not negative when `utcnow()` reads no earlier than the stored last
      healthy time. */
  lemma TimeDownNonNegative(s: Service, p: LegacyProbe, utcNow: DateTime)
    requires ComesUp(s, p) && s.lastTimeHealthy.Some?
    requires Valid(utcNow) && Valid(s.lastTimeHealthy.value) && NotAfter(s.lastTimeHealthy.value, utcNow)
    ensures TimeDownOf(s, p, utcNow).value.seconds >= 0
  {
    BetweenNonNegative(Truncate(s.lastTimeHealthy.value), Truncate(utcNow));
  }

  function Downs(active: seq<Service>, readings: seq<Reading>): (r: seq<Option<Duration>>)
    requires |readings| == |active|
    ensures |r| == |active|
    ensures forall i :: 0 <= i < |active| ==> r[i] == TimeDownOf(active[i], readings[i].probe, readings[i].utcNow)
  {
    seq(|active|, i requires 0 <= i < |active| => TimeDownOf(active[i], readings[i].probe, readings[i].utcNow))
  }

  /** The summary of a cycle: the services that went down and those that came back, each
      in its state at the end of the cycle, and the time each recovered service was down. */
  function CycleSummary(active: seq<Service>, readings: seq<Reading>): Summary
    requires |readings| == |active|
  {
    var final := Finals(active, readings);
    Summary(Select(final, DownFlags(active, readings)), Select(final, UpFlags(active, readings)),
            Collect(Names(active), Downs(active, readings)))
  }

  /** What the loop has gathered after one more service. */
  function Advance(acc: Summary, s: Service, r: Reading): Summary
  {
    var f := Final(s, r.probe, r.now);
    Summary(acc.unhealthy + (if GoesDown(s, r.probe) then [f] else []),
            acc.healthy + (if ComesUp(s, r.probe) then [f] else []),
            match TimeDownOf(s, r.probe, r.utcNow)
            case None => acc.timeDown
            case Some(d) => acc.timeDown[s.name := d])
  }

  /** `Advance` on a failed probe: a newly failing service joins the unhealthy list. */
  lemma AdvanceFailing(acc: Summary, s: Service, r: Reading)
    requires !r.probe.healthy
    ensures Advance(acc, s, r) ==
      Summary(acc.unhealthy + (if s.status != Unhealthy then [s.(status := Unhealthy)] else []), acc.healthy, acc.timeDown)
  {
  }

  /** `Advance` on a healthy probe: a recovering service joins the healthy list in its
      final state, with its downtime when it had been healthy before. */
  lemma AdvanceHealthy(acc: Summary, s: Service, r: Reading)
    requires r.probe.healthy
    ensures var f := s.(status := Healthy, lastTimeHealthy := Some(r.now), timeToFirstByte := r.probe.ttfb);
      Advance(acc, s, r) ==
        Summary(acc.unhealthy, acc.healthy + (if s.status != Healthy then [f] else []),
                if s.status != Healthy && s.lastTimeHealthy.Some? then
                  acc.timeDown[s.name := Between(Truncate(r.utcNow), Truncate(s.lastTimeHealthy.value))]
                else acc.timeDown)
  {
  }

  /** What the loop has gathered after the first `n` services. */
  function Partial(active: seq<Service>, readings: seq<Reading>, n: nat): Summary
    requires |readings| == |active| && n <= |active|
  {
    if n == 0 then Summary([], [], map[])
    else Advance(Partial(active, readings, n - 1), active[n - 1], readings[n - 1])
  }

  lemma PartialStep(active: seq<Service>, readings: seq<Reading>, i: nat)
    requires |readings| == |active| && i < |active|
    ensures Partial(active, readings, i + 1) == Advance(Partial(active, readings, i), active[i], readings[i])
  {
  }

  /** What the loop gathers over the first `n` services is the summary of those services. */
  lemma {:induction false} PartialSummary(active: seq<Service>, readings: seq<Reading>, n: nat)
    requires |readings| == |active| && n <= |active|
    ensures var final, names, downs := Finals(active, readings), Names(active), Downs(active, readings);
      Partial(active, readings, n) ==
        Summary(Select(final[..n], DownFlags(active, readings)[..n]), Select(final[..n], UpFlags(active, readings)[..n]),
                Collect(names[..n], downs[..n]))
  {
    var final, names, downs := Finals(active, readings), Names(active), Downs(active, readings);
    if n == 0 {
      assert final[..0] == [] && names[..0] == [];
    } else {
      PartialSummary(active, readings, n - 1);
      SelectStep(final, DownFlags(active, readings), n - 1);
      SelectStep(final, UpFlags(active, readings), n - 1);
      CollectStep(names, downs, n - 1);
    }
  }

  /** What the loop gathers over every service is the cycle's summary. */
  lemma PartialComplete(active: seq<Service>, readings: seq<Reading>)
    requires |readings| == |active|
    ensures Partial(active, readings, |active|) == CycleSummary(active, readings)
  {
    var final, names, downs := Finals(active, readings), Names(active), Downs(active, readings);
    var down, up := DownFlags(active, readings), UpFlags(active, readings);
    PartialSummary(active, readings, |active|);
    TakeAll(final);
    TakeAll(names);
    TakeAll(downs);
    TakeAll(down);
    TakeAll(up);
  }

  /** `{chat_id: summary}` when a list is non-empty, `{}` otherwise. */
  function Report(active: seq<Service>, readings: seq<Reading>): Option<Summary>
    requires |readings| == |active|
  {
    var summary := CycleSummary(active, readings);
    if summary.unhealthy != [] || summary.healthy != [] then Some(summary) else None
  }

  /** The older `chat_service_checker_command_handler` on a chat whose file holds `records`,
      the `i`-th active service observing `readings(i)`. */
  function ChatCycle(records: seq<Record>, readings: nat -> Reading): Result<Option<Summary>, LoadError>
  {
    match DecodeAll(records)
    case Failure(e) => Failure(e)
    case Success(all) =>
      var active := Active(all);
      Success(Report(active, Prefix(readings, |active|)))
  }

  function CycleWrites(records: seq<Record>, readings: nat -> Reading): seq<Write>
  {
    match DecodeAll(records)
    case Failure(_) => []
    case Success(all) =>
      var active := Active(all);
      WritesUpTo(active, Prefix(readings, |active|), |active|)
  }

  /** The older `chat_service_checker_command_handler(chat_id)` on the chat's store. */
  method ChatServiceChecker(store: Store, readings: nat -> Reading) returns (r: Result<Option<Summary>, LoadError>)
    requires store.Valid()
    modifies store
    ensures store.Valid() && store.fileExists && store.records == old(store.records)
    ensures r == ChatCycle(old(store.records), readings)
    ensures store.writes == old(store.writes) + CycleWrites(old(store.records), readings)
  {
    var repository := new ServiceRepository(store);
    var fetched := repository.FetchActive();
    if fetched.Failure? {
      return Failure(fetched.error);
    }
    var active := fetched.value;
    var summary := CheckAll(repository, active, Prefix(readings, |active|));
    if summary.unhealthy != [] || summary.healthy != [] {
      r := Success(Some(summary));
    } else {
      r := Success(None);
    }
  }

  /** The loop of the older handler over the active services. */
  method CheckAll(repository: ServiceRepository, active: seq<Service>, readings: seq<Reading>) returns (summary: Summary)
    requires |readings| == |active|
    modifies repository.backend
    ensures repository.backend.fileExists == old(repository.backend.fileExists)
    ensures repository.backend.records == old(repository.backend.records)
    ensures repository.backend.writes == old(repository.backend.writes) + WritesUpTo(active, readings, |active|)
    ensures summary == CycleSummary(active, readings)
  {
    var store := repository.backend;
    ghost var before := store.writes;
    var unhealthy: seq<Service> := [];
    var healthy: seq<Service> := [];
    var timeDown: map<string, Duration> := map[];
    var i := 0;
    while i < |active|
      invariant i <= |active|
      invariant store.fileExists == old(store.fileExists) && store.records == old(store.records)
      invariant Gathered(active, readings, i, before, store.writes, Summary(unhealthy, healthy, timeDown))
    {
      ghost var done := store.writes;
      ghost var acc := Summary(unhealthy, healthy, timeDown);
      unhealthy, healthy, timeDown := CheckOne(repository, unhealthy, healthy, timeDown, active[i], readings[i]);
      IterationStep(active, readings, i, before, done, acc, store.writes, Summary(unhealthy, healthy, timeDown));
      i := i + 1;
    }
    GatheredAll(active, readings, before, store.writes, Summary(unhealthy, healthy, timeDown));
    summary := Summary(unhealthy, healthy, timeDown);
  }

  /** The older loop's state after the first `i` services: the writes made on top of
      `before` and what it has gathered. */
  ghost predicate Gathered(active: seq<Service>, readings: seq<Reading>, i: nat, before: seq<Write>,
                           writes: seq<Write>, acc: Summary)
  {
    && |readings| == |active| && i <= |active|
    && writes == before + WritesUpTo(active, readings, i)
    && acc == Partial(active, readings, i)
  }

  /** One iteration keeps the loop's state: the writes so far and what it has gathered so
      far. */
  lemma IterationStep(active: seq<Service>, readings: seq<Reading>, i: nat, before: seq<Write>, done: seq<Write>, acc: Summary,
                      writes: seq<Write>, acc': Summary)
    requires Gathered(active, readings, i, before, done, acc) && i < |active|
    requires writes == done + Writes(active[i], readings[i].probe, readings[i].now)
    requires acc' == Advance(acc, active[i], readings[i])
    ensures Gathered(active, readings, i + 1, before, writes, acc')
  {
    WritesStep(active, readings, i);
    PartialStep(active, readings, i);
    AppendAssoc(before, WritesUpTo(active, readings, i), Writes(active[i], readings[i].probe, readings[i].now));
  }

  /** After every service the loop's writes are the cycle's and what it has gathered is the
      cycle's summary. */
  lemma GatheredAll(active: seq<Service>, readings: seq<Reading>, before: seq<Write>, writes: seq<Write>, acc: Summary)
    requires Gathered(active, readings, |active|, before, writes, acc)
    ensures writes == before + WritesUpTo(active, readings, |active|)
    ensures acc == CycleSummary(active, readings)
  {
    PartialComplete(active, readings);
  }

  /** One iteration of the older handler's loop on a service observing `reading`. */
  method CheckOne(repository: ServiceRepository, unhealthy: seq<Service>, healthy: seq<Service>,
                  timeDown: map<string, Duration>, service: Service, reading: Reading)
    returns (unhealthy': seq<Service>, healthy': seq<Service>, timeDown': map<string, Duration>)
    modifies repository.backend
    ensures Summary(unhealthy', healthy', timeDown') == Advance(Summary(unhealthy, healthy, timeDown), service, reading)
    ensures repository.backend.writes == old(repository.backend.writes) + Writes(service, reading.probe, reading.now)
    ensures repository.backend.fileExists == old(repository.backend.fileExists)
    ensures repository.backend.records == old(repository.backend.records)
  {
    unhealthy', healthy', timeDown' := unhealthy, healthy, timeDown;
    var p, utcNow, now := reading.probe, reading.utcNow, reading.now;
    ghost var before := repository.backend.writes;
    var lastTimeHealthyInitial := service.lastTimeHealthy;
    var updated := service;
    if !p.healthy {
      AdvanceFailing(Summary(unhealthy, healthy, timeDown), service, reading);
      if service.status != Unhealthy {
        updated := repository.MarkAsUnhealthy(updated);
        // The list holds the service object, which the repository updates in place:
        // what it shows is the state after the update.
        unhealthy' := unhealthy + [updated];
      }
    } else {
      AdvanceHealthy(Summary(unhealthy, healthy, timeDown), service, reading);
      ghost var marks: seq<Write> := [];
      if service.status != Healthy {
        if lastTimeHealthyInitial.Some? {
          timeDown' := timeDown[service.name := Between(Truncate(utcNow), Truncate(lastTimeHealthyInitial.value))];
        }
        updated := repository.MarkAsHealthy(updated);
        marks := [UpdateOne(ToDict(updated))];
      }
      assert repository.backend.writes == before + marks;
      updated := repository.UpdateServiceStatus(updated, p.ttfb, now);
      AppendAssoc(before, marks, [UpdateOne(ToDict(updated))]);
      if service.status != Healthy {
        // Appended before `update_service_status`, shown after it, for the same reason.
        healthy' := healthy + [updated];
      }
    }
  }

  /** A chat is reported exactly when some active service went down or came back. */
  lemma ReportIffTransition(active: seq<Service>, readings: seq<Reading>)
    requires |readings| == |active|
    ensures Report(active, readings).Some? <==>
      exists i :: 0 <= i < |active| && (GoesDown(active[i], readings[i].probe) || ComesUp(active[i], readings[i].probe))
  {
    var final := Finals(active, readings);
    var down := DownFlags(active, readings);
    var up := UpFlags(active, readings);
    SelectEmpty(final, down);
    SelectEmpty(final, up);
    if exists i :: 0 <= i < |active| && (GoesDown(active[i], readings[i].probe) || ComesUp(active[i], readings[i].probe)) {
      var i :| 0 <= i < |active| && (GoesDown(active[i], readings[i].probe) || ComesUp(active[i], readings[i].probe));
      assert down[i] || up[i];
    }
  }

  /** `time_down` has a key exactly for the names of services that came back with a
      previous `last_time_healthy`, and each value is the downtime of the last such service. */
  lemma TimeDownKeys(active: seq<Service>, readings: seq<Reading>, name: string)
    requires |readings| == |active|
    ensures name in CycleSummary(active, readings).timeDown <==>
      exists i :: 0 <= i < |active| && active[i].name == name && ComesUp(active[i], readings[i].probe)
        && active[i].lastTimeHealthy.Some?
    ensures name in CycleSummary(active, readings).timeDown ==>
      exists i :: 0 <= i < |active| && active[i].name == name
        && TimeDownOf(active[i], readings[i].probe, readings[i].utcNow) == Some(CycleSummary(active, readings).timeDown[name])
  {
    var names, downs := Names(active), Downs(active, readings);
    if name in CycleSummary(active, readings).timeDown {
      CollectValue(names, downs, name);
    }
    forall i | 0 <= i < |active| && active[i].name == name && ComesUp(active[i], readings[i].probe)
        && active[i].lastTimeHealthy.Some?
      ensures name in CycleSummary(active, readings).timeDown
    {
      CollectHas(names, downs, i);
    }
  }

  /** Given the same verdicts, the older handler and the newer one report the same chats
      and record a downtime for the same names: the rewrite kept the transitions. */
  lemma SameVerdictsSameTransitions(active: seq<Service>, readings: seq<Reading>, probes: seq<Probes.ProbeResult>,
                                    clock: nat -> DateTime, name: string)
    requires |readings| == |active| && |probes| == |active|
    requires forall i :: 0 <= i < |active| ==> probes[i].healthy == readings[i].probe.healthy
    ensures Report(active, readings).Some? <==> Handlers.Report(active, probes, clock).Some?
    ensures name in CycleSummary(active, readings).timeDown <==> name in Handlers.CycleSummary(active, probes, clock).timeDown
  {
    ReportIffTransition(active, readings);
    Handlers.ReportIffTransition(active, probes, clock);
    TimeDownKeys(active, readings, name);
    Handlers.TimeDownKeys(active, probes, clock, name);
    assert forall i :: 0 <= i < |active| ==>
      (GoesDown(active[i], readings[i].probe) <==> Handlers.GoesDown(active[i], probes[i]))
      && (ComesUp(active[i], readings[i].probe) <==> Handlers.ComesUp(active[i], probes[i]));
  }

  /** One chat's cycle within the older all-chats run; `readings(chatId)` is what the
      chat's iterations observe. */
  function Cycle(files: map<string, seq<Record>>, chatId: string, readings: string -> nat -> Reading)
    : Result<Option<Summary>, LoadError>
  {
    ChatCycle(StoredRecords(files, chatId), readings(chatId))
  }

  function Cycles(chatIds: seq<string>, files: map<string, seq<Record>>, readings: string -> nat -> Reading)
    : (r: seq<Result<Option<Summary>, LoadError>>)
    ensures |r| == |chatIds| && forall j :: 0 <= j < |chatIds| ==> r[j] == Cycle(files, chatIds[j], readings)
  {
    seq(|chatIds|, j requires 0 <= j < |chatIds| => Cycle(files, chatIds[j], readings))
  }

  function CyclesWrites(chatIds: seq<string>, files: map<string, seq<Record>>, readings: string -> nat -> Reading)
    : (r: seq<seq<Write>>)
    ensures |r| == |chatIds|
    ensures forall j :: 0 <= j < |chatIds| ==> r[j] == CycleWrites(StoredRecords(files, chatIds[j]), readings(chatIds[j]))
  {
    seq(|chatIds|, j requires 0 <= j < |chatIds| => CycleWrites(StoredRecords(files, chatIds[j]), readings(chatIds[j])))
  }

  /** The older `chat_services_checker_command_handler`: each listed chat checked in
      listing order and its result merged with `dict.update`; a chat whose list does not
      load aborts the run. */
  method ChatServicesChecker(listing: seq<DirEntry>, files: map<string, seq<Record>>, readings: string -> nat -> Reading)
    returns (r: Result<Reports, LoadError>, written: seq<(string, Write)>)
    ensures var ids := ChatIds(listing);
      r == Sweep(ids, Cycles(ids, files, readings))
    ensures var ids := ChatIds(listing);
      written == SweepWrites(ids, Cycles(ids, files, readings), CyclesWrites(ids, files, readings))
  {
    r, written := CheckChats(ChatIds(listing), files, readings);
  }

  /** The loop over the chat ids. */
  method CheckChats(chatIds: seq<string>, files: map<string, seq<Record>>, readings: string -> nat -> Reading)
    returns (r: Result<Reports, LoadError>, written: seq<(string, Write)>)
    ensures r == Sweep(chatIds, Cycles(chatIds, files, readings))
    ensures written == SweepWrites(chatIds, Cycles(chatIds, files, readings), CyclesWrites(chatIds, files, readings))
  {
    ghost var cycles := Cycles(chatIds, files, readings);
    ghost var writes := CyclesWrites(chatIds, files, readings);
    var reports: Reports := [];
    written := [];
    SweptStart(chatIds, cycles, writes);
    var i := 0;
    while i < |chatIds|
      invariant i <= |chatIds|
      invariant Swept(chatIds, cycles, writes, i, reports, written)
    {
      var chatId := chatIds[i];
      var fetched, chatWrites := CheckChat(files, chatId, readings);
      SweepIteration(chatIds, cycles, writes, i, reports, written, fetched, chatWrites);
      written := written + Tagged(chatId, chatWrites);
      if fetched.Failure? {
        return Failure(fetched.error), written;
      }
      reports := Merge(reports, chatId, fetched.value);
      i := i + 1;
    }
    SweptEnd(chatIds, cycles, writes, reports, written);
    r := Success(reports);
  }

  /** The handler's call for one chat id: the store `create(chat_id)` opens on the chat's
      file, then the chat's cycle on it; the store's writes are returned. */
  method CheckChat(files: map<string, seq<Record>>, chatId: string, readings: string -> nat -> Reading)
    returns (r: Result<Option<Summary>, LoadError>, written: seq<Write>)
    ensures r == Cycle(files, chatId, readings)
    ensures written == CycleWrites(StoredRecords(files, chatId), readings(chatId))
  {
    var store := new Store.Create(chatId, OnDisk(files, chatId));
    r := ChatServiceChecker(store, readings(chatId));
    written := store.writes;
  }

  /** The older listing's detail line: the response time of a HEALTHY service that has one,
      the last healthy time, month first, of an UNHEALTHY service that has one, else
      nothing. */
  function Detail(s: Service, showFloat: Float -> string): (r: string)
    ensures r != "" <==>
      (s.status == Healthy && s.timeToFirstByte.Some?) || (s.status == Unhealthy && s.lastTimeHealthy.Some?)
    ensures s.status == Healthy && s.timeToFirstByte.Some? ==>
      StartsWith(r, "\nresponse time: `") && EndsWith(r, showFloat(s.timeToFirstByte.value) + "`")
    ensures s.status == Unhealthy && s.lastTimeHealthy.Some? ==>
      StartsWith(r, "\nlast time healthy: `") && EndsWith(r, MonthFirstText(s.lastTimeHealthy.value) + "`")
  {
    if s.status == Healthy && s.timeToFirstByte.Some? then
      var shown := showFloat(s.timeToFirstByte.value) + "`";
      Joined("\nresponse time: `", shown);
      "\nresponse time: `" + shown
    else if s.status == Unhealthy && s.lastTimeHealthy.Some? then
      var shown := MonthFirstText(s.lastTimeHealthy.value) + "`";
      Joined("\nlast time healthy: `", shown);
      "\nlast time healthy: `" + shown
    else ""
  }

  function NameLine(s: Service): string
  {
    "name: `" + s.name + "`\n"
  }

  function StatusLine(s: Service): string
  {
    "status: `" + StatusValue(s.status) + "`"
  }

  /** A service's block of the older listing. */
  function Block(s: Service, showFloat: Float -> string): string
  {
    "\n\n" + NameLine(s) + StatusLine(s) + Detail(s, showFloat)
  }

  /** A block opens with the service's name and lower-case status value and closes with its
      detail line. */
  lemma BlockShape(s: Service, showFloat: Float -> string)
    ensures StartsWith(Block(s, showFloat), "\n\nname: `" + s.name + "`\nstatus: `" + StatusValue(s.status) + "`")
    ensures EndsWith(Block(s, showFloat), Detail(s, showFloat))
  {
    var name, value := s.name, StatusValue(s.status);
    var head := "\n\nname: `" + name + "`\nstatus: `" + value + "`";
    assert "\n\n" + NameLine(s) == "\n\nname: `" + name + "`\n";
    assert "`\n" + "status: `" == "`\nstatus: `";
    assert "\n\n" + NameLine(s) + StatusLine(s) == head;
    Joined(head, Detail(s, showFloat));
  }

  function Blocks(services: seq<Service>, showFloat: Float -> string): (r: seq<string>)
    ensures |r| == |services| && forall i :: 0 <= i < |services| ==> r[i] == Block(services[i], showFloat)
  {
    seq(|services|, i requires 0 <= i < |services| => Block(services[i], showFloat))
  }

  /** The older `list_services_command_handler`'s text for the stored services. */
  function Listing(services: seq<Service>, showFloat: Float -> string): string
  {
    if services == [] then NothingToSee else Concat(Blocks(services, showFloat))
  }

  /** The listing is the "nothing to see" text exactly when there is no service, and
      otherwise opens with the first service's block. */
  lemma ListingNothingIff(services: seq<Service>, showFloat: Float -> string)
    ensures Listing(services, showFloat) == NothingToSee <==> services == []
    ensures services != [] ==> StartsWith(Listing(services, showFloat), Block(services[0], showFloat))
  {
    if services != [] {
      var s := services[0];
      var text, block := Listing(services, showFloat), Block(s, showFloat);
      ConcatStart(Blocks(services, showFloat));
      BlockShape(s, showFloat);
      FirstChar(block, "\n\nname: `" + s.name + "`\nstatus: `" + StatusValue(s.status) + "`");
      FirstChar(text, block);
      assert NothingToSee[0] != text[0];
    }
  }

  /** The older `list_services_command_handler` on the chat's store: the listing of every
      stored service, or the exception the load raises. */
  method ListServices(store: Store, showFloat: Float -> string) returns (r: Result<string, LoadError>)
    requires store.Valid()
    modifies store
    ensures store.Valid() && store.records == old(store.records) && store.writes == old(store.writes)
    ensures DecodeAll(old(store.records)).Failure? ==> r == Failure(DecodeAll(old(store.records)).error)
    ensures DecodeAll(old(store.records)).Success? ==>
      r == Success(Listing(DecodeAll(old(store.records)).value, showFloat))
  {
    var repository := new ServiceRepository(store);
    var fetched := repository.FetchAll();
    if fetched.Failure? {
      return Failure(fetched.error);
    }
    var all := fetched.value;
    if all == [] {
      return Success(NothingToSee);
    }
    var result := RenderAll(all, showFloat);
    r := Success(result);
  }

  /** The loop of the older listing: a block per service, appended in order. */
  method RenderAll(all: seq<Service>, showFloat: Float -> string) returns (result: string)
    ensures result == Concat(Blocks(all, showFloat))
  {
    result := "";
    var i := 0;
    while i < |all|
      invariant 0 <= i <= |all|
      invariant result == Concat(Blocks(all, showFloat)[..i])
    {
      var service := all[i];
      ghost var before := result;
      result := result + "\n\n";
      result := result + NameLine(service);
      result := result + StatusLine(service);
      result := result + Detail(service, showFloat);
      AppendFour(before, "\n\n", NameLine(service), StatusLine(service), Detail(service, showFloat));
      ConcatStep(Blocks(all, showFloat), i);
      i := i + 1;
    }
    TakeAll(Blocks(all, showFloat));
  }

}
