/** The scheduled job of commands/check_all_services.py: it runs the all-chats check and
    turns every chat's summary into the messages the bot sends, in order. Sending is the
    append of a message to the outbox; the Markdown parse mode is not part of the text. */
module Notifications {
  import opened Wrappers
  import opened Seqs
  import opened Text
  import opened Clock
  import opened Services
  import opened Persistence
  import opened Repository
  import opened Summaries
  import opened Probes
  import Handlers

  /** One `send_message(chat_id=…, text=…)`. */
  datatype Message = Message(chatId: string, text: string)

  /** The status code of a down message: `code or "nothing"`, so both a missing code and
      a zero code show "nothing". */
  function ReturnedText(code: Option<int>): (r: string)
    ensures r == "nothing" <==> code.None? || code == Some(0)
    ensures code.Some? && code.value != 0 ==> r == IntToString(code.value)
  {
    if code.None? || code.value == 0 then "nothing" else IntToString(code.value)
  }

  /** What a down message says happened. */
  function DownStatus(expired: bool): string
  {
    if expired then "**certificate is expired**" else "**is down**"
  }

  /** The message for a service that went down; `expired` is the service's
      `is_cert_expired`. */
  function DownText(s: Service, expired: bool): string
  {
    DownHead(s) + DownStatus(expired) + DownTail(s)
  }

  /** The opening of a down message: the service's name. */
  function DownHead(s: Service): string
  {
    "🤕 `" + s.name + "` "
  }

  /** The end of a down message: the status code, or "nothing". */
  function DownTail(s: Service): (r: string)
    ensures StartsWith(r, "!")
  {
    "!\nIt returned `" + ReturnedText(s.lastHttpResponseStatusCode) + "`"
  }

  /** The ` after <time_down>` part of a recovery message: present exactly when the
      service's name is a key of the `time_down` dict. */
  function AfterText(name: string, timeDown: map<string, Duration>): (r: string)
    ensures r == "" <==> name !in timeDown
  {
    if name in timeDown then " after " + DurationText(timeDown[name]) else ""
  }

  /** The message for a service that came back. */
  function UpText(s: Service, timeDown: map<string, Duration>): string
  {
    UpHead(s) + AfterText(s.name, timeDown) + UpTail(s)
  }

  /** The opening of a recovery message: the service's name. */
  function UpHead(s: Service): string
  {
    "✅ `" + s.name + "` is back to normal"
  }

  /** The end of a recovery message: the status code as Python shows it. */
  function UpTail(s: Service): (r: string)
    ensures StartsWith(r, "!")
  {
    "!\nIt returned `" + CodeText(s.lastHttpResponseStatusCode) + "`"
  }

  /** A down message says "certificate is expired" exactly when the certificate is
      expired. */
  lemma DownTextExpired(s: Service, expired: bool)
    ensures StartsWith(DownText(s, expired), DownHead(s) + "**certificate is expired**") <==> expired
  {
    var cert, rest := "**certificate is expired**", DownStatus(expired) + DownTail(s);
    assert DownText(s, expired) == DownHead(s) + rest;
    CommonPrefix(DownHead(s), cert, rest);
    if expired {
      Joined(cert, DownTail(s));
    } else {
      assert rest[2] == 'i';
      PrefixesDiffer(cert, rest, 2);
    }
  }

  /** A down message says "is down" exactly when the certificate is not expired. */
  lemma DownTextDown(s: Service, expired: bool)
    ensures StartsWith(DownText(s, expired), DownHead(s) + "**is down**") <==> !expired
  {
    var down, rest := "**is down**", DownStatus(expired) + DownTail(s);
    assert DownText(s, expired) == DownHead(s) + rest;
    CommonPrefix(DownHead(s), down, rest);
    if expired {
      assert rest[2] == 'c';
      PrefixesDiffer(down, rest, 2);
    } else {
      Joined(down, DownTail(s));
    }
  }

  /** A down message ends with the status code, or "nothing" when there is none. */
  lemma DownTextCode(s: Service, expired: bool)
    ensures EndsWith(DownText(s, expired), "!\nIt returned `" + ReturnedText(s.lastHttpResponseStatusCode) + "`")
  {
    Joined(DownHead(s) + DownStatus(expired), DownTail(s));
  }

  /** A recovery message carries " after " exactly when its name is a key of
      `time_down`. */
  lemma UpTextAfter(s: Service, timeDown: map<string, Duration>)
    ensures StartsWith(UpText(s, timeDown), UpHead(s) + " after ") <==> s.name in timeDown
  {
    var rest := AfterText(s.name, timeDown) + UpTail(s);
    assert UpText(s, timeDown) == UpHead(s) + rest;
    CommonPrefix(UpHead(s), " after ", rest);
    if s.name in timeDown {
      var after := AfterText(s.name, timeDown);
      Joined(" after ", DurationText(timeDown[s.name]));
      Joined(after, UpTail(s));
      StartsWithTrans(rest, after, " after ");
    } else {
      assert rest == UpTail(s);
      PrefixesDiffer(" after ", rest, 0);
    }
  }

  /** What follows " after " is the time the service was down. */
  lemma UpTextDuration(s: Service, timeDown: map<string, Duration>)
    requires s.name in timeDown
    ensures StartsWith(UpText(s, timeDown), UpHead(s) + " after " + DurationText(timeDown[s.name]) + "!")
  {
    var head := UpHead(s) + " after " + DurationText(timeDown[s.name]);
    assert UpText(s, timeDown) == head + UpTail(s);
    CommonPrefix(head, "!", UpTail(s));
  }

  /** A recovery message ends with the status code as Python shows it. */
  lemma UpTextCode(s: Service, timeDown: map<string, Duration>)
    ensures EndsWith(UpText(s, timeDown), "!\nIt returned `" + CodeText(s.lastHttpResponseStatusCode) + "`")
  {
    Joined(UpHead(s) + AfterText(s.name, timeDown), UpTail(s));
  }

  /** The messages about the services that went down, in list order. */
  function DownMessages(chatId: string, unhealthy: seq<Service>, expired: Service -> bool): (r: seq<Message>)
    ensures |r| == |unhealthy|
    ensures forall i :: 0 <= i < |unhealthy| ==> r[i] == Message(chatId, DownText(unhealthy[i], expired(unhealthy[i])))
  {
    seq(|unhealthy|, i requires 0 <= i < |unhealthy| => Message(chatId, DownText(unhealthy[i], expired(unhealthy[i]))))
  }

  /** The messages about the services that came back, in list order. */
  function UpMessages(chatId: string, healthy: seq<Service>, timeDown: map<string, Duration>): (r: seq<Message>)
    ensures |r| == |healthy|
    ensures forall i :: 0 <= i < |healthy| ==> r[i] == Message(chatId, UpText(healthy[i], timeDown))
  {
    seq(|healthy|, i requires 0 <= i < |healthy| => Message(chatId, UpText(healthy[i], timeDown)))
  }

  /** The messages of one chat: one per service that went down, then one per service that
      came back. */
  function ChatMessages(chatId: string, s: Summary, expired: Service -> bool): (r: seq<Message>)
    ensures |r| == |s.unhealthy| + |s.healthy|
  {
    DownMessages(chatId, s.unhealthy, expired) + UpMessages(chatId, s.healthy, s.timeDown)
  }

  /** Every message the job sends, chat by chat in the dict's order. */
  function Outbox(rs: Reports, expired: Service -> bool): seq<Message>
    decreases |rs|
  {
    if |rs| == 0 then []
    else
      var n := |rs| - 1;
      Outbox(rs[..n], expired) + ChatMessages(rs[n].0, rs[n].1, expired)
  }

  /** Whether a message goes to the chat. */
  function SentTo(chatId: string): Message -> bool
  {
    (m: Message) => m.chatId == chatId
  }

  /** The messages sent to one chat, in order. */
  function ToChat(outbox: seq<Message>, chatId: string): seq<Message>
  {
    Filter(outbox, SentTo(chatId))
  }

  /** A chat's own messages are all its own. */
  lemma ChatMessagesTo(chatId: string, s: Summary, expired: Service -> bool, k: string)
    ensures ToChat(ChatMessages(chatId, s, expired), k) == if chatId == k then ChatMessages(chatId, s, expired) else []
  {
    var ms := ChatMessages(chatId, s, expired);
    assert forall i :: 0 <= i < |ms| ==> ms[i].chatId == chatId;
    if chatId == k {
      FilterAll(ms, SentTo(k));
    } else {
      FilterNone(ms, SentTo(k));
    }
  }

  /** In a dict with unique keys, a chat receives exactly the messages of its own summary,
      unhealthy ones first, and a chat that is not a key receives nothing. */
  lemma {:induction false} OutboxToChat(rs: Reports, expired: Service -> bool, k: string)
    requires UniqueKeys(rs)
    ensures ToChat(Outbox(rs, expired), k) == match Get(rs, k)
                                               case None => []
                                               case Some(s) => ChatMessages(k, s, expired)
    decreases |rs|
  {
    if |rs| > 0 {
      var n := |rs| - 1;
      var prefix := rs[..n];
      assert UniqueKeys(prefix);
      OutboxToChat(prefix, expired, k);
      FilterAppend(Outbox(prefix, expired), ChatMessages(rs[n].0, rs[n].1, expired), SentTo(k));
      ChatMessagesTo(rs[n].0, rs[n].1, expired, k);
      if rs[n].0 == k {
        assert k !in Keys(prefix);
      }
    }
  }

  /** Sending the messages of every chat in the dict, as the job's two nested loops do. */
  method SendAll(rs: Reports, expired: Service -> bool) returns (outbox: seq<Message>)
    ensures outbox == Outbox(rs, expired)
  {
    outbox := [];
    var i := 0;
    while i < |rs|
      invariant i <= |rs|
      invariant outbox == Outbox(rs[..i], expired)
    {
      var (chatId, s) := rs[i];
      outbox := SendChat(outbox, chatId, s, expired);
      OutboxStep(rs, expired, i);
      i := i + 1;
    }
    TakeAll(rs);
  }

  lemma OutboxStep(rs: Reports, expired: Service -> bool, i: nat)
    requires i < |rs|
    ensures Outbox(rs[..i + 1], expired) == Outbox(rs[..i], expired) + ChatMessages(rs[i].0, rs[i].1, expired)
  {
    assert rs[..i + 1][..i] == rs[..i];
  }

  /** The body of the loop over the chats: the messages of one chat's summary. */
  method SendChat(outbox: seq<Message>, chatId: string, s: Summary, expired: Service -> bool)
    returns (outbox': seq<Message>)
    ensures outbox' == outbox + ChatMessages(chatId, s, expired)
  {
    ghost var downs := DownMessages(chatId, s.unhealthy, expired);
    ghost var ups := UpMessages(chatId, s.healthy, s.timeDown);
    outbox' := outbox;
    var j := 0;
    while j < |s.unhealthy|
      invariant j <= |s.unhealthy|
      invariant outbox' == outbox + downs[..j]
    {
      var service := s.unhealthy[j];
      outbox' := outbox' + [Message(chatId, DownText(service, expired(service)))];
      TakeSnoc(downs, j);
      AppendAssoc(outbox, downs[..j], [downs[j]]);
      j := j + 1;
    }
    TakeAll(downs);
    j := 0;
    while j < |s.healthy|
      invariant j <= |s.healthy|
      invariant outbox' == outbox + downs + ups[..j]
    {
      var service := s.healthy[j];
      outbox' := outbox' + [Message(chatId, UpText(service, s.timeDown))];
      TakeSnoc(ups, j);
      AppendAssoc(outbox + downs, ups[..j], [ups[j]]);
      j := j + 1;
    }
    TakeAll(ups);
    AppendAssoc(outbox, downs, ups);
  }

  /** `check_all_services`: the all-chats check, then every message of its result. An
      exception of the check ends the job before anything is sent. */
  method CheckAllServices(listing: seq<DirEntry>, files: map<string, seq<Record>>,
                          network: string -> nat -> RequestOutcome, clock: string -> nat -> DateTime,
                          expired: Service -> bool)
    returns (r: Result<seq<Message>, Handlers.CycleError>, written: seq<(string, Write)>)
    ensures var ids := ChatIds(listing);
      var swept := Sweep(ids, Handlers.Cycles(ids, files, network, clock));
      && (swept.Failure? ==> r == Failure(swept.error))
      && (swept.Success? ==> r == Success(Outbox(swept.value, expired)))
    ensures var ids := ChatIds(listing);
      written == SweepWrites(ids, Handlers.Cycles(ids, files, network, clock), Handlers.CyclesWrites(ids, files, network, clock))
  {
    var checked;
    checked, written := Handlers.ChatServicesChecker(listing, files, network, clock);
    if checked.Failure? {
      return Failure(checked.error), written;
    }
    var outbox := SendAll(checked.value, expired);
    r := Success(outbox);
  }

  /** After a completed all-chats check, a chat receives exactly the messages of the
      summary its last reporting cycle produced, and a chat no cycle reported receives
      nothing. */
  lemma NotifiedChats<E>(chatIds: seq<string>, cycles: seq<Result<Option<Summary>, E>>, expired: Service -> bool, k: string)
    requires |cycles| == |chatIds| && Sweep(chatIds, cycles).Success?
    ensures var rs := Sweep(chatIds, cycles).value;
      && (Get(rs, k).None? ==> ToChat(Outbox(rs, expired), k) == [])
      && (Get(rs, k).Some? ==> ToChat(Outbox(rs, expired), k) == ChatMessages(k, Get(rs, k).value, expired))
      && (Get(rs, k).Some? <==> exists j :: 0 <= j < |chatIds| && chatIds[j] == k && cycles[j].Success? && cycles[j].value.Some?)
  {
    SweepMerges(chatIds, cycles);
    var results := Values(cycles);
    MergeAllKeys(chatIds, results, k);
    OutboxToChat(Sweep(chatIds, cycles).value, expired, k);
  }
}
