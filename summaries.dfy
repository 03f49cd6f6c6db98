/** The per-chat summary the check handlers return, and the chat-keyed dict the all-chats
    handlers build from them with `dict.update`. */
module Summaries {
  import opened Wrappers
  import opened Clock
  import opened Services
  import opened Seqs

  /** `{'unhealthy': [...], 'healthy': [...], 'time_down': {...}}`. */
  datatype Summary = Summary(unhealthy: seq<Service>, healthy: seq<Service>, timeDown: map<string, Duration>)

  /** A dict from chat id to summary, in insertion order. */
  type Reports = seq<(string, Summary)>

  function Keys(rs: Reports): (ks: seq<string>)
    ensures |ks| == |rs|
    ensures forall i :: 0 <= i < |rs| ==> ks[i] == rs[i].0
  {
    seq(|rs|, i requires 0 <= i < |rs| => rs[i].0)
  }

  /** A dict holds each key once. */
  predicate UniqueKeys(rs: Reports)
  {
    forall i, j :: 0 <= i < j < |rs| ==> rs[i].0 != rs[j].0
  }

  /** `d[k]`, or `None` when `k` is not a key. */
  function Get(rs: Reports, k: string): (r: Option<Summary>)
    ensures r.Some? <==> k in Keys(rs)
    ensures r.Some? ==> (k, r.value) in rs
    decreases |rs|
  {
    if |rs| == 0 then None
    else
      var n := |rs| - 1;
      if rs[n].0 == k then Some(rs[n].1)
      else
        var r := Get(rs[..n], k);
        assert Keys(rs) == Keys(rs[..n]) + [rs[n].0];
        r
  }

  /** `d.update({k: v})`: an existing key keeps its place and takes the new value, a new
      key goes last. */
  function Upsert(rs: Reports, k: string, v: Summary): (r: Reports)
  {
    if k in Keys(rs) then seq(|rs|, i requires 0 <= i < |rs| => if rs[i].0 == k then (k, v) else rs[i])
    else rs + [(k, v)]
  }

  /** An update stores the new value under its key, leaves every other key's value alone,
      keeps the keys unique and in order, and adds the key at the end when it is new. */
  lemma UpsertProperties(rs: Reports, k: string, v: Summary, k': string)
    requires UniqueKeys(rs)
    ensures UniqueKeys(Upsert(rs, k, v))
    ensures Get(Upsert(rs, k, v), k) == Some(v)
    ensures k' != k ==> Get(Upsert(rs, k, v), k') == Get(rs, k')
    ensures Keys(Upsert(rs, k, v)) == if k in Keys(rs) then Keys(rs) else Keys(rs) + [k]
  {
    var r := Upsert(rs, k, v);
    if k in Keys(rs) {
      assert Keys(r) == Keys(rs);
      GetUnique(r, k, v);
      if k' != k && k' in Keys(rs) {
        var i :| 0 <= i < |rs| && rs[i].0 == k';
        GetUnique(rs, k', rs[i].1);
        GetUnique(r, k', rs[i].1);
      }
    } else {
      assert Keys(r) == Keys(rs) + [k];
      if k' != k && k' in Keys(rs) {
        var i :| 0 <= i < |rs| && rs[i].0 == k';
        GetUnique(rs, k', rs[i].1);
        GetUnique(r, k', rs[i].1);
      }
    }
  }

  /** With unique keys, the value `Get` finds is the one stored beside the key. */
  lemma GetUnique(rs: Reports, k: string, v: Summary)
    requires UniqueKeys(rs) && (k, v) in rs
    ensures Get(rs, k) == Some(v)
  {
    var r := Get(rs, k);
    assert k in Keys(rs);
    var i :| 0 <= i < |rs| && rs[i] == (k, v);
    var j :| 0 <= j < |rs| && rs[j] == (k, r.value);
    assert i == j;
  }

  /** `d.update(result)` with a handler's result, which is `{}` or `{chat_id: summary}`. */
  function Merge(rs: Reports, chatId: string, result: Option<Summary>): Reports
  {
    if result.Some? then Upsert(rs, chatId, result.value) else rs
  }

  /** A dict built by updating an empty one with each result in turn. */
  function MergeAll(chatIds: seq<string>, results: seq<Option<Summary>>): Reports
    requires |results| == |chatIds|
    decreases |chatIds|
  {
    if |chatIds| == 0 then []
    else
      var n := |chatIds| - 1;
      Merge(MergeAll(chatIds[..n], results[..n]), chatIds[n], results[n])
  }

  lemma {:induction false} MergeAllUnique(chatIds: seq<string>, results: seq<Option<Summary>>)
    requires |results| == |chatIds|
    ensures UniqueKeys(MergeAll(chatIds, results))
    decreases |chatIds|
  {
    if |chatIds| > 0 {
      var n := |chatIds| - 1;
      MergeAllUnique(chatIds[..n], results[..n]);
      if results[n].Some? {
        UpsertProperties(MergeAll(chatIds[..n], results[..n]), chatIds[n], results[n].value, chatIds[n]);
      }
    }
  }

  /** A chat with a result is a key of the merged dict. */
  lemma {:induction false} MergeAllHas(chatIds: seq<string>, results: seq<Option<Summary>>, j: nat)
    requires |results| == |chatIds| && j < |chatIds| && results[j].Some?
    ensures chatIds[j] in Keys(MergeAll(chatIds, results))
    decreases |chatIds|
  {
    var n := |chatIds| - 1;
    var before := MergeAll(chatIds[..n], results[..n]);
    MergeAllUnique(chatIds[..n], results[..n]);
    if results[n].Some? {
      UpsertProperties(before, chatIds[n], results[n].value, chatIds[j]);
    }
    if j < n {
      MergeAllHas(chatIds[..n], results[..n], j);
      if results[n].Some? && chatIds[j] != chatIds[n] {
        assert Get(before, chatIds[j]).Some?;
      }
    }
  }

  /** Position `j` is the last chat with id `k` that has a result. */
  predicate LastResult(chatIds: seq<string>, results: seq<Option<Summary>>, k: string, j: int)
    requires |results| == |chatIds|
  {
    0 <= j < |chatIds| && chatIds[j] == k && results[j].Some?
    && forall j' :: j < j' < |chatIds| && chatIds[j'] == k ==> results[j'].None?
  }

  /** A key of the merged dict holds the result of the last chat with that id and a
      result: `dict.update` overwrites. */
  lemma {:induction false} MergeAllValue(chatIds: seq<string>, results: seq<Option<Summary>>, k: string)
    requires |results| == |chatIds| && k in Keys(MergeAll(chatIds, results))
    ensures exists j :: LastResult(chatIds, results, k, j) && results[j] == Get(MergeAll(chatIds, results), k)
    decreases |chatIds|
  {
    var n := |chatIds| - 1;
    var before := MergeAll(chatIds[..n], results[..n]);
    var after := MergeAll(chatIds, results);
    MergeAllUnique(chatIds[..n], results[..n]);
    if results[n].Some? {
      UpsertProperties(before, chatIds[n], results[n].value, k);
    }
    if chatIds[n] == k && results[n].Some? {
      assert LastResult(chatIds, results, k, n) && results[n] == Get(after, k);
    } else {
      assert k in Keys(before) && Get(before, k) == Get(after, k);
      MergeAllValue(chatIds[..n], results[..n], k);
      var j :| LastResult(chatIds[..n], results[..n], k, j) && results[..n][j] == Get(before, k);
      LastResultExtends(chatIds, results, k, j);
      assert results[j] == Get(after, k);
    }
  }

  lemma LastResultExtends(chatIds: seq<string>, results: seq<Option<Summary>>, k: string, j: int)
    requires |results| == |chatIds| && |chatIds| > 0
    requires LastResult(chatIds[..|chatIds| - 1], results[..|chatIds| - 1], k, j)
    requires !(chatIds[|chatIds| - 1] == k && results[|chatIds| - 1].Some?)
    ensures LastResult(chatIds, results, k, j)
  {
    var n := |chatIds| - 1;
    forall j' | j < j' < |chatIds| && chatIds[j'] == k ensures results[j'].None? {
      if j' < n {
        assert chatIds[..n][j'] == chatIds[j'] && results[..n][j'] == results[j'];
      }
    }
    assert chatIds[..n][j] == chatIds[j] && results[..n][j] == results[j];
  }

  /** The merged dict holds each chat id once, exactly the ids with a result, each with
      the summary of the last of them. */
  lemma MergeAllKeys(chatIds: seq<string>, results: seq<Option<Summary>>, k: string)
    requires |results| == |chatIds|
    ensures UniqueKeys(MergeAll(chatIds, results))
    ensures k in Keys(MergeAll(chatIds, results)) <==>
      exists j :: 0 <= j < |chatIds| && chatIds[j] == k && results[j].Some?
    ensures k in Keys(MergeAll(chatIds, results)) ==>
      exists j :: LastResult(chatIds, results, k, j) && results[j] == Get(MergeAll(chatIds, results), k)
  {
    MergeAllUnique(chatIds, results);
    if k in Keys(MergeAll(chatIds, results)) {
      MergeAllValue(chatIds, results, k);
    }
    forall j | 0 <= j < |chatIds| && chatIds[j] == k && results[j].Some?
      ensures k in Keys(MergeAll(chatIds, results))
    {
      MergeAllHas(chatIds, results, j);
    }
  }

  /** The values the cycles reported, with `None` also for an aborted cycle. */
  function Values<E>(cycles: seq<Result<Option<Summary>, E>>): (r: seq<Option<Summary>>)
    ensures |r| == |cycles|
    ensures forall j :: 0 <= j < |cycles| && cycles[j].Success? ==> r[j] == cycles[j].value
  {
    seq(|cycles|, j requires 0 <= j < |cycles| => if cycles[j].Success? then cycles[j].value else None)
  }

  /** The all-chats loop over the chats' cycle results in chat order: each result is merged
      with `dict.update`, and the first aborted cycle aborts the loop with its exception. */
  function Sweep<E>(chatIds: seq<string>, cycles: seq<Result<Option<Summary>, E>>): Result<Reports, E>
    requires |cycles| == |chatIds|
    decreases |chatIds|
  {
    if |chatIds| == 0 then Success([])
    else
      var n := |chatIds| - 1;
      match Sweep(chatIds[..n], cycles[..n])
      case Failure(e) => Failure(e)
      case Success(reports) =>
        match cycles[n]
        case Failure(e) => Failure(e)
        case Success(result) => Success(Merge(reports, chatIds[n], result))
  }

  /** The writes of the chats whose cycle ran, each tagged with its chat id, in order: every
      chat up to and including the first aborted one. */
  function SweepWrites<E, W>(chatIds: seq<string>, cycles: seq<Result<Option<Summary>, E>>, writes: seq<seq<W>>)
    : seq<(string, W)>
    requires |cycles| == |chatIds| && |writes| == |chatIds|
    decreases |chatIds|
  {
    if |chatIds| == 0 then []
    else
      var n := |chatIds| - 1;
      var before := SweepWrites(chatIds[..n], cycles[..n], writes[..n]);
      if Sweep(chatIds[..n], cycles[..n]).Failure? then before else before + Tagged(chatIds[n], writes[n])
  }

  function Tagged<W>(chatId: string, writes: seq<W>): (r: seq<(string, W)>)
    ensures |r| == |writes| && forall i :: 0 <= i < |writes| ==> r[i] == (chatId, writes[i])
  {
    seq(|writes|, i requires 0 <= i < |writes| => (chatId, writes[i]))
  }

  /** The loop over one more chat, when the loop so far has not been aborted. */
  lemma SweepStep<E, W>(chatIds: seq<string>, cycles: seq<Result<Option<Summary>, E>>, writes: seq<seq<W>>, i: nat)
    requires |cycles| == |chatIds| && |writes| == |chatIds| && i < |chatIds|
    requires Sweep(chatIds[..i], cycles[..i]).Success?
    ensures Sweep(chatIds[..i + 1], cycles[..i + 1]) ==
      if cycles[i].Failure? then Failure(cycles[i].error)
      else Success(Merge(Sweep(chatIds[..i], cycles[..i]).value, chatIds[i], cycles[i].value))
    ensures SweepWrites(chatIds[..i + 1], cycles[..i + 1], writes[..i + 1])
      == SweepWrites(chatIds[..i], cycles[..i], writes[..i]) + Tagged(chatIds[i], writes[i])
  {
    assert chatIds[..i + 1][..i] == chatIds[..i];
    assert cycles[..i + 1][..i] == cycles[..i];
    assert writes[..i + 1][..i] == writes[..i];
  }

  /** The all-chats loop's state after the first `i` chats: the reports merged so far and
      the writes made so far, with no chat aborted yet. */
  ghost predicate Swept<E, W>(chatIds: seq<string>, cycles: seq<Result<Option<Summary>, E>>, writes: seq<seq<W>>,
                              i: nat, reports: Reports, written: seq<(string, W)>)
  {
    && |cycles| == |chatIds| && |writes| == |chatIds| && i <= |chatIds|
    && Sweep(chatIds[..i], cycles[..i]) == Success(reports)
    && written == SweepWrites(chatIds[..i], cycles[..i], writes[..i])
  }

  /** Before the first chat nothing is merged and nothing is written. */
  lemma SweptStart<E, W>(chatIds: seq<string>, cycles: seq<Result<Option<Summary>, E>>, writes: seq<seq<W>>)
    requires |cycles| == |chatIds| && |writes| == |chatIds|
    ensures Swept(chatIds, cycles, writes, 0, [], [])
  {
    assert chatIds[..0] == [] && cycles[..0] == [] && writes[..0] == [];
  }

  /** After the last chat the loop's state is the whole sweep. */
  lemma SweptEnd<E, W>(chatIds: seq<string>, cycles: seq<Result<Option<Summary>, E>>, writes: seq<seq<W>>,
                       reports: Reports, written: seq<(string, W)>)
    requires Swept(chatIds, cycles, writes, |chatIds|, reports, written)
    ensures Sweep(chatIds, cycles) == Success(reports)
    ensures SweepWrites(chatIds, cycles, writes) == written
  {
    TakeAll(chatIds);
    TakeAll(cycles);
    TakeAll(writes);
  }

  /** One iteration of the all-chats loop, on the chat whose cycle gave `result` and wrote
      `w`: an aborted cycle ends the loop with its exception, after its writes; otherwise
      the loop goes on with the result merged in. */
  lemma SweepIteration<E, W>(chatIds: seq<string>, cycles: seq<Result<Option<Summary>, E>>, writes: seq<seq<W>>, i: nat,
                             reports: Reports, written: seq<(string, W)>, result: Result<Option<Summary>, E>, w: seq<W>)
    requires Swept(chatIds, cycles, writes, i, reports, written) && i < |chatIds|
    requires cycles[i] == result && writes[i] == w
    ensures result.Failure? ==>
              && Sweep(chatIds, cycles) == Failure(result.error)
              && SweepWrites(chatIds, cycles, writes) == written + Tagged(chatIds[i], w)
    ensures result.Success? ==>
              Swept(chatIds, cycles, writes, i + 1, Merge(reports, chatIds[i], result.value), written + Tagged(chatIds[i], w))
  {
    SweepStep(chatIds, cycles, writes, i);
    if result.Failure? {
      SweepAbortSticks(chatIds, cycles, writes, i + 1);
    }
  }

  /** Once the loop over a prefix of the chats is aborted, the whole loop's result and
      writes are those of the prefix. */
  lemma {:induction false} SweepAbortSticks<E, W>(chatIds: seq<string>, cycles: seq<Result<Option<Summary>, E>>,
                                                 writes: seq<seq<W>>, k: nat)
    requires |cycles| == |chatIds| && |writes| == |chatIds| && k <= |chatIds|
    requires Sweep(chatIds[..k], cycles[..k]).Failure?
    ensures Sweep(chatIds, cycles) == Sweep(chatIds[..k], cycles[..k])
    ensures SweepWrites(chatIds, cycles, writes) == SweepWrites(chatIds[..k], cycles[..k], writes[..k])
    decreases |chatIds| - k
  {
    if k < |chatIds| {
      var m := |chatIds| - 1;
      assert chatIds[..m][..k] == chatIds[..k];
      assert cycles[..m][..k] == cycles[..k];
      assert writes[..m][..k] == writes[..k];
      SweepAbortSticks(chatIds[..m], cycles[..m], writes[..m], k);
    } else {
      assert chatIds[..k] == chatIds && cycles[..k] == cycles && writes[..k] == writes;
    }
  }

  /** The loop completes exactly when every chat's cycle does, and then its dict is the
      merge of every chat's result, so by `MergeAllKeys` it holds each chat id once: exactly
      the chats that reported. */
  lemma {:induction false} SweepMerges<E>(chatIds: seq<string>, cycles: seq<Result<Option<Summary>, E>>)
    requires |cycles| == |chatIds|
    ensures Sweep(chatIds, cycles).Success? <==> forall j :: 0 <= j < |cycles| ==> cycles[j].Success?
    ensures Sweep(chatIds, cycles).Success? ==> Sweep(chatIds, cycles).value == MergeAll(chatIds, Values(cycles))
    decreases |chatIds|
  {
    if |chatIds| > 0 {
      var n := |chatIds| - 1;
      SweepMerges(chatIds[..n], cycles[..n]);
      assert Values(cycles[..n]) == Values(cycles)[..n];
      assert forall j :: 0 <= j < n ==> cycles[..n][j] == cycles[j];
    }
  }

  /** The services' names, in order. */
  function Names(services: seq<Service>): (r: seq<string>)
    ensures |r| == |services| && forall i :: 0 <= i < |services| ==> r[i] == services[i].name
  {
    seq(|services|, i requires 0 <= i < |services| => services[i].name)
  }

  /** A `time_down` dict filled in order: each name with a duration sets its entry, so a
      later entry for the same name overwrites an earlier one. */
  function Collect(names: seq<string>, downs: seq<Option<Duration>>): map<string, Duration>
    requires |downs| == |names|
    decreases |names|
  {
    if |names| == 0 then map[]
    else
      var n := |names| - 1;
      var m := Collect(names[..n], downs[..n]);
      if downs[n].Some? then m[names[n] := downs[n].value] else m
  }

  lemma CollectStep(names: seq<string>, downs: seq<Option<Duration>>, i: nat)
    requires |downs| == |names| && i < |names|
    ensures Collect(names[..i + 1], downs[..i + 1]) ==
      if downs[i].Some? then Collect(names[..i], downs[..i])[names[i] := downs[i].value]
      else Collect(names[..i], downs[..i])
  {
    assert names[..i + 1][..i] == names[..i];
    assert downs[..i + 1][..i] == downs[..i];
  }

  /** A name carried with a duration at some position is in the dict. */
  lemma {:induction false} CollectHas(names: seq<string>, downs: seq<Option<Duration>>, i: nat)
    requires |downs| == |names| && i < |names| && downs[i].Some?
    ensures names[i] in Collect(names, downs)
    decreases |names|
  {
    var n := |names| - 1;
    if i < n {
      CollectHas(names[..n], downs[..n], i);
    }
  }

  /** A name in the dict is carried with its entry's duration at some position, and no later
      position carries that name with a duration: the last one wins. */
  lemma {:induction false} CollectValue(names: seq<string>, downs: seq<Option<Duration>>, name: string)
    requires |downs| == |names| && name in Collect(names, downs)
    ensures exists i :: 0 <= i < |names| && names[i] == name && downs[i] == Some(Collect(names, downs)[name])
                        && forall j :: i < j < |names| && names[j] == name ==> downs[j].None?
    decreases |names|
  {
    var n := |names| - 1;
    if names[n] == name && downs[n].Some? {
      assert names[n] == name && downs[n] == Some(Collect(names, downs)[name]);
    } else {
      var m := Collect(names[..n], downs[..n]);
      assert name in m && m[name] == Collect(names, downs)[name];
      CollectValue(names[..n], downs[..n], name);
      var i :| 0 <= i < n && names[..n][i] == name && downs[..n][i] == Some(m[name])
        && forall j :: i < j < n && names[..n][j] == name ==> downs[..n][j].None?;
      forall j | i < j < |names| && names[j] == name ensures downs[j].None? {
        if j < n {
          assert names[..n][j] == names[j] && downs[..n][j] == downs[j];
        }
      }
      assert names[i] == name && downs[i] == Some(Collect(names, downs)[name]);
    }
  }
}
