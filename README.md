# Health-check bot core in Dafny

This project models the bookkeeping core of a Telegram bot that watches web services on
behalf of chats. Each chat owns a JSON file of service records. A periodic job goes
through three steps:

- it probes every enabled service of every chat;
- it reconciles each service's stored state with the probe's verdict, detecting services
  that went down and services that came back;
- it writes the records back and sends one message per transition.

Users can also add, remove and list services.

The repository holds two revisions of the handlers side by side, and both are modelled:

- the newer `commands/handlers.py`, with asynchronous HTTP probes, one bulk write per chat
  and a listing with a certificate line;
- the older `command_handlers.py`, with synchronous probes, per-service repository writes
  and a listing in another format.

Modules, one per source file, plus small libraries:

| module | models |
|---|---|
| `Services` | the service record: status enum, field defaults, `to_dict`, `str` (models/service.py) |
| `Clock` | the parts of `datetime` the code relies on: `strftime`/`strptime` in the stored format, whole-second truncation, differences and `str(timedelta)` |
| `Probes` | `RequestBackend.check` over an abstract request outcome (backends/request_backend.py) |
| `LegacyProbes` | the socket check, `_get_url` and the older request check (backends.py) |
| `Persistence` | `PersistenceBackend` as a class `Store`: the chat's record list, whether its file exists, and a log of `update`/`bulk_update` calls (persistence.py); the handlers' `LocalJsonRepository` is taken to behave like it |
| `Repository` | record decoding and the class `ServiceRepository` (repositories/service_repository.py) |
| `Summaries` | the per-chat result dict, `dict.update` merging, the all-chats loop with its abort semantics, and the `time_down` dict |
| `Handlers` | the newer cycle, all-chats loop, add/remove and listing (commands/handlers.py) |
| `LegacyHandlers` | the older cycle, all-chats loop and listing (command_handlers.py) |
| `Notifications` | the message texts and the ordered outbox of `check_all_services` (commands/check_all_services.py) |
| `Wrappers`, `Seqs`, `Text` | `Option`/`Result`, order-preserving filters and selections, and integer/string rendering |

Where the source mutates things step by step, the model does too:

- the reconcile loops are `while` loops proved against a specification function of the inputs;
- the store and the repository are classes whose methods state the new state;
- the listing builds its string in a loop;
- the outbox is filled in the job's nested loop order.

Services are values. A Python `Service` mutated in place and also appended to a list shows
up in that list in its final state, so the model appends the final value. The network, the
clock and the directory listing are inputs:

- the network: one outcome per active service, in active order, since `asyncio.gather`
  keeps that order;
- the clock: a function from the service's position to a time;
- the directory listing: a sequence of entries.

An exception in a chat's cycle aborts the whole all-chats run. Writes made before the
exception persist. The all-chats methods therefore return a `Result` together with the
tagged log of writes that happened.

## Model

| member | source | states |
|---|---|---|
| Services.StatusRoundTrip | models/service.py:9-12 | decoding a status's value gives the status back; exactly the three strings 'unknown', 'healthy', 'unhealthy' decode |
| Services.NewService | models/service.py:26-35 | a new service keeps name and url and has the dataclass defaults: enabled, UNKNOWN, no last healthy time, no code, no expiry date, ttfb 0.0 |
| Services.DateSlot | models/service.py:19-20 | a datetime field is always present in the dict; it is null exactly when the value is None |
| Services.ToDict | models/service.py:15-23 | the status is stored as its value, datetimes as text exactly when set, all other fields unchanged |
| Services.Str | models/service.py:41-45 | `str` is the name, " <", the url and ">" |
| Services.CodeText | commands/check_all_services.py:35 | a missing status code renders as "None" and only then |
| Services.HealthcheckBackend | models/service.py:37-39 | the backend is a request backend over this very service |
| Probes.Request | backends/request_backend.py:15-21 | every probe is a GET to the service's url with the fixed User-Agent header |
| Probes.Check | backends/request_backend.py:19-33 | a transport or certificate error gives (False, None, None, None); a response is healthy iff its code is outside 400..511, and returns its code, elapsed time and certificate expiry; a response with no TLS session is an error |
| Probes.CheckVerdicts | backends/request_backend.py:32-33 | 200, 301, 399, 512 and 999 are healthy; 400, 404, 500 and 511 are not |
| LegacyProbes.SocketCheck | backends.py:19-26 | healthy iff `connect_ex` returned 0; socket errors and timeouts are unhealthy |
| LegacyProbes.GetUrl | backends.py:31-33 | the scheme is https iff the port is 443, else http; the url is exactly the scheme, "://", the domain, ":" and the decimal port, which is written even for 443 |
| LegacyProbes.RequestCheck | backends.py:35-42 | healthy iff a response came back with a code below 400 |
| Clock.Parse | repositories/service_repository.py:37-50 | whatever parses is a valid date and time |
| Clock.ParseEncode | models/service.py:19-20 | parsing the stored text of a valid datetime gives it back to the microsecond |
| Clock.Truncate | commands/handlers.py:42 | truncation zeroes the microseconds and keeps a valid time valid |
| Clock.OrdinalMonotonic | commands/handlers.py:47-49 | a date in an earlier month or year has a smaller day number (used by BetweenNonNegative) |
| Clock.BetweenNonNegative | commands/handlers.py:47-49 | the difference of a later and an earlier time is not negative (used by the TimeDownNonNegative lemmas) |
| Clock.DurationTextSameDay | commands/check_all_services.py:28-29 | a downtime under a day renders as H:MM:SS |
| Clock.DurationTextNegative | commands/check_all_services.py:28-29 | a downtime of minus one second renders as "-1 day, 23:59:59" |
| Clock.DurationTextMinusOneDay | commands/check_all_services.py:28-29 | a duration whose floored day count is -1 renders as "-1 day, " followed by its clock part |
| Clock.DurationTextDayBehind | commands/check_all_services.py:28-29 | a downtime that is negative by up to a day renders as "-1 day, " followed by the same-day text of what remains after adding a day |
| Persistence.FileName | persistence.py:40-43 | the file of a chat is "data/" + chat id + ".json", and the chat id can be read back from it |
| Persistence.OnDisk | persistence.py:49-55 | a chat has stored records exactly when its file exists |
| Persistence.ChatIds | persistence.py:35-38 | one chat id per regular ".json" file of the listing |
| Persistence.ChatIdOfFile | persistence.py:35-38 | stripping ".json" from a chat's file name gives the chat id back iff the id has a character other than a dot |
| Persistence.ChatIdsOfFiles | persistence.py:35-38 | listing the files of chats gives their ids back in listing order |
| Persistence.ChatIdsSkip | persistence.py:35-38 | a directory or a non-".json" entry adds no chat id |
| Persistence.RemoveNamedKeeps | persistence.py:62-64 | a record survives removal iff it was stored and its name differs from the argument ignoring case |
| Persistence.RemoveNamedIdempotent | persistence.py:62-64 | removing the same name twice is removing it once |
| Persistence.RemoveNamedAbsent | persistence.py:62-64 | removing a name that no record has changes nothing |
| Persistence.AddThenRemove | persistence.py:57-64 | removing a name right after adding a record with that name (ignoring case) leaves no such record |
| Persistence.Store.Create | persistence.py:40-43 | a backend for a chat has the chat's file name and the chat's stored records, and no writes yet |
| Persistence.Store.Save | persistence.py:45-47 | after saving, the file exists and holds exactly the data |
| Persistence.Store.FetchAll | persistence.py:49-55 | returns the stored list; a missing file is created empty and gives [] |
| Persistence.Store.Add | persistence.py:57-60 | the stored list becomes the old list followed by the record |
| Persistence.Store.Remove | persistence.py:62-64 | the stored list keeps exactly the records whose name differs ignoring case, in order |
| Persistence.Store.Update | persistence/base_persistence.py:24-26 | records one `update` call with the record and changes nothing else, so the store stays consistent |
| Persistence.Store.BulkUpdate | persistence/base_persistence.py:28-30 | records one `bulk_update` call with the list and changes nothing else, so the store stays consistent |
| Repository.DecodeStatus | repositories/service_repository.py:35-36 | a status decodes iff it is text naming one of the three values |
| Repository.DecodeTimestamp | repositories/service_repository.py:37-50 | a missing or null date is None; a text date decodes iff it parses, and then to a valid time |
| Repository.Decode | repositories/service_repository.py:32-52 | a record decodes iff its status and both dates decode, keeping name, url and enabled |
| Repository.DecodeToDict | repositories/service_repository.py:32-52 | decoding the dict of a valid service gives the service back |
| Repository.DecodeDateSlot | repositories/service_repository.py:37-50 | decoding a stored date gives the date back |
| Repository.DecodeNeedsStatus | repositories/service_repository.py:35-36 | a record that decodes has one of the three status values |
| Repository.DecodeAll | repositories/service_repository.py:32-52 | a list loads iff every record decodes, giving one service per record in stored order |
| Repository.DecodeAllPrefixFailure | repositories/service_repository.py:32-52 | the first record that fails to decode fails the whole load with its error |
| Repository.Records | commands/handlers.py:56 | one dict per service, in order |
| Repository.DecodeAllToDict | repositories/service_repository.py:32-52 | loading the dicts of valid services gives the services back |
| Repository.ActiveMember | repositories/service_repository.py:54-55 | the active services are exactly the enabled ones, and the filter keeps order across concatenation |
| Repository.ServiceRepository.constructor | repositories/service_repository.py:13-14 | the repository wraps the given backend |
| Repository.ServiceRepository.UpdateServiceStatus | repositories/service_repository.py:16-19 | sets the last healthy time and ttfb, no other field, and writes the service once with `update` |
| Repository.ServiceRepository.MarkAsHealthy | repositories/service_repository.py:21-23 | sets the status to HEALTHY and writes the service once |
| Repository.ServiceRepository.MarkAsUnhealthy | repositories/service_repository.py:25-27 | sets the status to UNHEALTHY and writes the service once |
| Repository.ServiceRepository.Update | repositories/service_repository.py:29-30 | passes the list unchanged to one `bulk_update` |
| Repository.ServiceRepository.FetchAll | repositories/service_repository.py:32-52 | the result is the decoding of the stored list |
| Repository.ServiceRepository.FetchActive | repositories/service_repository.py:54-55 | the enabled services of the stored list in order, or the load error |
| Repository.ServiceRepository.Add | repositories/service_repository.py:57-60 | appends the dict of a new default service built from name and url and returns that service; no duplicate check |
| Repository.ServiceRepository.Remove | repositories/service_repository.py:62-64 | removes by name ignoring case, then reloads; fails iff the remaining list does not load |
| Summaries.Get | commands/handlers.py:70-78 | a chat has a summary iff it is a key of the result dict |
| Summaries.UpsertProperties | commands/handlers.py:76 | `dict.update` sets the chat's entry, leaves the others, and keeps a key's first position |
| Summaries.GetUnique | commands/handlers.py:76 | with unique keys, the stored entry is the one looked up |
| Summaries.MergeAllUnique | commands/handlers.py:70-78 | the merged dict has each chat at most once |
| Summaries.MergeAllHas | commands/handlers.py:70-78 | every chat whose cycle reported is in the merged dict |
| Summaries.MergeAllValue | commands/handlers.py:70-78 | a chat's merged entry is the last report of that chat |
| Summaries.MergeAllKeys | commands/handlers.py:70-78 | the merged dict holds exactly the chats with a report, each with its last report |
| Summaries.Values | commands/handlers.py:74-76 | one result per completed cycle, in chat order |
| Summaries.Tagged | commands/handlers.py:74-76 | each write of a chat's cycle, tagged with the chat id, in order |
| Summaries.SweepIteration | commands/handlers.py:74-76 | one pass of the all-chats loop: a failed cycle ends the run with its error and its writes; a completed one is merged |
| Summaries.SweepAbortSticks | commands/handlers.py:74-76 | once a cycle has failed, later chats change neither the result nor the writes |
| Summaries.SweepMerges | commands/handlers.py:70-78 | the run succeeds iff every cycle does, and then is the merge of their results |
| Summaries.Names | commands/handlers.py:47 | the names of the services, in order |
| Summaries.CollectHas | commands/handlers.py:47-49 | every name given a downtime is a key of `time_down` |
| Summaries.CollectValue | commands/handlers.py:47-49 | every key of `time_down` holds a downtime computed for that name |
| Handlers.Gather | commands/handlers.py:26-31 | the probes succeed iff every service's check does, giving one result per active service in order |
| Handlers.Now | commands/handlers.py:42 | the time read for a service has no microseconds |
| Handlers.Reconcile | commands/handlers.py:33-55 | status HEALTHY iff the probe said healthy, else UNHEALTHY; the code is always the probe's; on a healthy probe the last healthy time is now and ttfb and expiry are the probe's, otherwise those three are kept |
| Handlers.Reconciled | commands/handlers.py:33-55 | each active service reconciled with its own probe and time, in order |
| Handlers.TimeDownOf | commands/handlers.py:43-51 | a service has a downtime iff it came back and had a previous last healthy time |
| Handlers.TimeDownNonNegative | commands/handlers.py:42-49 | a downtime is not negative when the clock reads no earlier than the stored last healthy time |
| Handlers.ReconcileAll | commands/handlers.py:32-56 | the loop's records are the reconciled services' dicts in active order, and its lists and `time_down` are the cycle's summary |
| Handlers.ReportIffTransition | commands/handlers.py:59-67 | a chat is reported iff some active service went down or came back |
| Handlers.SummaryMembers | commands/handlers.py:34-44 | the unhealthy list holds exactly the services that went down (UNKNOWN included, sustained outages excluded), the healthy list exactly those that came back, in their final state |
| Handlers.TimeDownKeys | commands/handlers.py:43-51 | `time_down` has exactly the names of services that came back with a previous healthy time, each with its downtime |
| Handlers.SecondCycleQuiet | commands/handlers.py:34-44 | checking again with the same verdicts reports nothing |
| Handlers.WrittenRecordsLoad | commands/handlers.py:56-57 | the written records load back as the reconciled services |
| Handlers.CycleWritesOnce | commands/handlers.py:57 | a completed cycle makes exactly one `bulk_update`, with one record per active service, even for none; a failed one writes nothing |
| Handlers.ChatServiceChecker | commands/handlers.py:19-67 | the chat's cycle: the result and the one bulk write are those of the cycle on the stored records, and the file exists afterwards |
| Handlers.Cycles | commands/handlers.py:74-75 | one cycle per chat, each on that chat's stored records |
| Handlers.CyclesWrites | commands/handlers.py:74-75 | one write log per chat, each from that chat's stored records |
| Handlers.ChatServicesChecker | commands/handlers.py:70-78 | the all-chats result and writes are those of the loop over the listed chat ids |
| Handlers.CheckChats | commands/handlers.py:74-76 | the loop merges the chats' results in order and aborts at the first failing chat |
| Handlers.CheckChat | commands/handlers.py:75 | one chat's cycle on a fresh backend for its file |
| Handlers.AddService | commands/handlers.py:81-83 | appends the new default service to the chat's list and returns it |
| Handlers.RemoveService | commands/handlers.py:86-88 | removes the name ignoring case and reloads the rest |
| Handlers.DetailLine | commands/handlers.py:101-104 | for HEALTHY with a ttfb, a line starting with a newline, "ttfb: " and a backtick and ending with the shown ttfb and a backtick; for UNHEALTHY with a time, a line starting with a newline, "Last time healthy: " and a backtick and ending with the day-first time and a backtick; otherwise nothing |
| Handlers.CertLine | commands/handlers.py:105-106 | a line iff the service has an expiry date, starting with a newline, "Cert expires: " and a backtick and ending with the day-first expiry and a backtick |
| Handlers.BlockShape | commands/handlers.py:98-106 | a block starts with a blank line, the name and the upper-cased status, and ends with the certificate line |
| Handlers.Blocks | commands/handlers.py:97-106 | one block per service, in order |
| Handlers.ListingNothingIff | commands/handlers.py:94-95 | the listing is the nothing-to-see text iff there are no services, and otherwise starts with the first block |
| Handlers.ListServices | commands/handlers.py:91-107 | the listing of the stored services, or their load error; the stored list is unchanged |
| Handlers.RenderAll | commands/handlers.py:96-107 | the loop's string is the concatenation of the blocks in order |
| LegacyHandlers.Final | command_handlers.py:21-36 | the service after its iteration: HEALTHY with the new time and ttfb on a healthy probe, UNHEALTHY otherwise; code and expiry untouched |
| LegacyHandlers.WritesShape | command_handlers.py:21-36 | a sustained outage writes nothing, a new failure writes once, a healthy probe writes once more after a recovery's mark, last of all the final state |
| LegacyHandlers.Finals | command_handlers.py:18-36 | each active service in its final state, in order |
| LegacyHandlers.TimeDownOf | command_handlers.py:29-34 | a downtime iff the service came back with a previous healthy time |
| LegacyHandlers.TimeDownNonNegative | command_handlers.py:29-32 | a downtime is not negative when `utcnow()` reads no earlier than the stored last healthy time |
| LegacyHandlers.Downs | command_handlers.py:29-34 | one possible downtime per service, in order |
| LegacyHandlers.AdvanceFailing | command_handlers.py:22-25 | on a failed probe only a newly failing service joins the unhealthy list |
| LegacyHandlers.AdvanceHealthy | command_handlers.py:26-36 | on a healthy probe a recovering service joins the healthy list in its final state, with its downtime when it had a previous healthy time |
| LegacyHandlers.PartialSummary | command_handlers.py:18-36 | what the loop has gathered after n services is the selection and `time_down` of those n services |
| LegacyHandlers.PartialComplete | command_handlers.py:18-41 | what the loop gathers over all services is the cycle's summary |
| LegacyHandlers.CheckAll | command_handlers.py:18-36 | the loop's writes are every service's writes in order, and its lists and `time_down` are the cycle's summary |
| LegacyHandlers.CheckOne | command_handlers.py:19-36 | one iteration: its writes and its additions to the lists |
| LegacyHandlers.ChatServiceChecker | command_handlers.py:11-41 | the older cycle on a chat's stored records: its result and writes |
| LegacyHandlers.ReportIffTransition | command_handlers.py:37-41 | a chat is reported iff some active service went down or came back |
| LegacyHandlers.TimeDownKeys | command_handlers.py:29-34 | `time_down` has exactly the names of services that came back with a previous healthy time |
| LegacyHandlers.SameVerdictsSameTransitions | command_handlers.py:21-41 | with the same verdicts, the older and newer cycles report the same chats and the same downtime names |
| LegacyHandlers.Cycles | command_handlers.py:48-50 | one cycle per chat, each on that chat's stored records |
| LegacyHandlers.CyclesWrites | command_handlers.py:48-50 | one write log per chat |
| LegacyHandlers.ChatServicesChecker | command_handlers.py:44-52 | the older all-chats result and writes are those of the loop over the listed chats |
| LegacyHandlers.CheckChats | command_handlers.py:48-50 | merges in order, aborting at the first failing chat |
| LegacyHandlers.CheckChat | command_handlers.py:49 | one chat's older cycle on a fresh backend |
| LegacyHandlers.Detail | command_handlers.py:75-78 | for HEALTHY with a ttfb, a line starting with a newline, "response time: " and a backtick and ending with the shown ttfb and a backtick; for UNHEALTHY with a time, a line starting with a newline, "last time healthy: " and a backtick and ending with the month-first time and a backtick; otherwise nothing |
| LegacyHandlers.BlockShape | command_handlers.py:72-78 | a block starts with a blank line and the name and status lines, and ends with the detail line |
| LegacyHandlers.Blocks | command_handlers.py:71-78 | one block per service, in order |
| LegacyHandlers.ListingNothingIff | command_handlers.py:68-69 | the listing is the nothing-to-see text iff there are no services |
| LegacyHandlers.ListServices | command_handlers.py:65-79 | the older listing of the stored services, or their load error |
| LegacyHandlers.RenderAll | command_handlers.py:70-79 | the loop's string is the concatenation of the blocks |
| Notifications.ReturnedText | commands/check_all_services.py:22 | "nothing" iff the code is missing or 0, else the code in decimal |
| Notifications.AfterText | commands/check_all_services.py:27-32 | the suffix is empty iff the name has no downtime |
| Notifications.DownTextExpired | commands/check_all_services.py:19-21 | the down message says the certificate is expired iff it is |
| Notifications.DownTextDown | commands/check_all_services.py:19-21 | the down message says "is down" iff the certificate is not expired |
| Notifications.DownTextCode | commands/check_all_services.py:22 | the down message ends with the returned code or "nothing" |
| Notifications.UpTextAfter | commands/check_all_services.py:27-34 | the recovery message has " after " iff the name has a downtime |
| Notifications.UpTextDuration | commands/check_all_services.py:28-34 | with a downtime, the recovery message carries it right after " after " |
| Notifications.UpTextCode | commands/check_all_services.py:35 | the recovery message ends with the status code, with no fallback |
| Notifications.DownMessages | commands/check_all_services.py:18-24 | one down message per unhealthy service, in order |
| Notifications.UpMessages | commands/check_all_services.py:26-37 | one recovery message per healthy service, in order |
| Notifications.ChatMessages | commands/check_all_services.py:15-37 | a chat gets its unhealthy count plus its healthy count of messages |
| Notifications.OutboxToChat | commands/check_all_services.py:15-37 | a chat receives exactly its summary's messages, unhealthy first, and a chat absent from the summary nothing |
| Notifications.SendAll | commands/check_all_services.py:15-37 | the loops send the outbox in order |
| Notifications.SendChat | commands/check_all_services.py:16-37 | one chat's messages appended to the outbox: downs, then recoveries |
| Notifications.CheckAllServices | commands/check_all_services.py:12-37 | the job sends the outbox of the all-chats result, or nothing when the check fails |
| Notifications.NotifiedChats | commands/check_all_services.py:13-37 | after a completed check, a chat receives messages iff one of its cycles reported, and then those of its summary |

## Left out

- Network and TLS: `httpx`, `requests`, sockets and `getpeercert` are replaced by an outcome datatype given as input. Transport retries and timeouts are not modelled.
- Concurrency: `asyncio.gather` becomes a sequence of outcomes aligned with the active services.
- Floats: the time to first byte and elapsed time are carried as opaque numbers, and their text is a function parameter `showFloat`.
- Clocks: `datetime.now`/`utcnow` become parameters. The newer cycle reads a `clock` per service position. Each older iteration has a `Reading` with two times: the downtime's `utcnow` and `update_service_status`'s `now`. Time zones are not modelled.
- Certificate expiry: parsing `notAfter` with `%b %d %H:%M:%S %Y %Z` is a library call; the response carries the parsed date.
- Clock.Parse: only the fixed-width form `strftime` writes is accepted, which is stricter than Python's `strptime`.
- `is_cert_expired`: it is not defined on the shown service model, so it is an input function `expired`.
- `update`/`bulk_update`: persistence/local_json_repository.py is not part of this model, so these calls are only recorded in a write log.
- `LocalJsonRepository`: the handlers create their stores and list chat ids through this class, which is not part of this model. The model assumes its `create`, `get_all_chat_ids`, `fetch_all`, `add` and `remove` behave as those of `PersistenceBackend` (persistence.py:35-64), which `Store` models.
- Repository.Decode: a stored record is modelled with exactly the eight keys `to_dict` writes, where each date may also be absent. Three behaviours of `Service(status=..., **service_data)` (repositories/service_repository.py:51) are therefore not modelled. An unknown key, such as the older `service_type`/`domain`/`port` shape, or a missing `name`/`url` raises `TypeError`. A missing `enabled`, status code or time to first byte falls back to the dataclass default. A date that is neither null nor text is kept as is once `strptime`'s `TypeError` is caught. So "decodes iff status and both dates decode" holds only for records of that shape.
- Older add/remove (command_handlers.py:55-62): `ServiceManager` is not part of this model. The older cycle and listing use `ServiceRepository` in its place.
- File-system I/O: JSON, `open`, `listdir` and `isfile` are not modelled. Files are an in-memory map and the listing is an input.
- Case folding: `str.lower` is modelled for ASCII letters only.
- Telegram: message delivery failures, the Markdown parse mode, command parsing, `main.py` and the framework glue are not modelled.
- Logging is not modelled.
- Aliasing: a service appended to a list and then mutated is modelled by appending its final state. Identity is not modelled.
- Plain HTTP: a response without a TLS session raises `AttributeError` in `RequestBackend.check`. This is modelled as the probe error `NoTlsObject`, which aborts the chat's cycle and the all-chats run.
