/** The per-chat JSON file store of persistence.py. A chat's file is modelled by whether it
    exists and the list of records it holds; the directory listing is an input. */
module Persistence {
  import opened Wrappers
  import opened Text
  import opened Seqs
  import opened Services

  /** `f'data/{chat_id}.json'`, the file `create` binds a chat to. */
  function FileName(chatId: string): (f: string)
    ensures StartsWith(f, "data/") && EndsWith(f, ".json")
    ensures |f| == |chatId| + 10 && f[5..|f| - 5] == chatId
  {
    var f := "data/" + chatId + ".json";
    assert f[5..|f| - 5] == chatId;
    f
  }

  /** The chat's stored list as the store of `create(chat_id)` finds it; `files` maps each
      existing file name to its contents. */
  function OnDisk(files: map<string, seq<Record>>, chatId: string): (r: Option<seq<Record>>)
    ensures r.Some? <==> FileName(chatId) in files
  {
    if FileName(chatId) in files then Some(files[FileName(chatId)]) else None
  }

  function StoredRecords(files: map<string, seq<Record>>, chatId: string): seq<Record>
  {
    if FileName(chatId) in files then files[FileName(chatId)] else []
  }

  /** One name returned by `listdir`, with whether `isfile` holds for it. */
  datatype DirEntry = DirEntry(name: string, isFile: bool)

  predicate IsJsonFile(e: DirEntry)
  {
    e.isFile && EndsWith(e.name, ".json")
  }

  /** Whether a stem contains a character other than '.': `splitext` only splits off an
      extension that follows such a character. */
  predicate HasNonDot(stem: string)
  {
    exists i :: 0 <= i < |stem| && stem[i] != '.'
  }

  /** `splitext(name)[0]` for a name ending in ".json". */
  function StripJson(name: string): string
    requires EndsWith(name, ".json")
  {
    var stem := name[..|name| - 5];
    if HasNonDot(stem) then stem else name
  }

  /** `get_all_chat_ids`: the regular files of the listing whose name ends in ".json",
      in listing order, each with its extension removed. */
  function ChatIds(listing: seq<DirEntry>): (ids: seq<string>)
    ensures |ids| == |Filter(listing, IsJsonFile)|
  {
    var files := Filter(listing, IsJsonFile);
    seq(|files|, i requires 0 <= i < |files| =>
      FilterMember(listing, IsJsonFile, files[i]);
      StripJson(files[i].name))
  }

  /** The file of a chat, as listed in its directory, gives back the chat id, provided
      the id has a character other than '.' (otherwise `splitext` keeps ".json"). */
  lemma ChatIdOfFile(chatId: string)
    ensures EndsWith(chatId + ".json", ".json")
    ensures StripJson(chatId + ".json") == chatId <==> HasNonDot(chatId)
  {
    var name := chatId + ".json";
    assert name[..|name| - 5] == chatId;
    if !HasNonDot(chatId) {
      assert |name| != |chatId|;
    }
  }

  /** Listing the files of a set of chats (any order) gives back exactly those chat
      ids in that order: `create` and `get_all_chat_ids` invert each other. */
  lemma {:induction false} ChatIdsOfFiles(chatIds: seq<string>)
    requires forall i :: 0 <= i < |chatIds| ==> HasNonDot(chatIds[i])
    ensures ChatIds(seq(|chatIds|, i requires 0 <= i < |chatIds| => DirEntry(chatIds[i] + ".json", true))) == chatIds
    decreases |chatIds|
  {
    var listing := seq(|chatIds|, i requires 0 <= i < |chatIds| => DirEntry(chatIds[i] + ".json", true));
    forall i | 0 <= i < |listing| ensures IsJsonFile(listing[i]) {
      ChatIdOfFile(chatIds[i]);
    }
    FilterAll(listing, IsJsonFile);
    forall i | 0 <= i < |chatIds| ensures ChatIds(listing)[i] == chatIds[i] {
      ChatIdOfFile(chatIds[i]);
    }
  }

  /** Non-files and names without the ".json" suffix never yield a chat id. */
  lemma ChatIdsSkip(listing: seq<DirEntry>, e: DirEntry)
    requires !IsJsonFile(e)
    ensures ChatIds(listing + [e]) == ChatIds(listing)
  {
    FilterSnoc(listing, e, IsJsonFile);
  }

  /** The names `remove(name)` keeps: those that differ from `name` ignoring case. */
  function Survives(name: string): Record -> bool
  {
    (r: Record) => Lower(r.name) != Lower(name)
  }

  /** The list `remove(name)` saves. */
  function RemoveNamed(records: seq<Record>, name: string): seq<Record>
  {
    Filter(records, Survives(name))
  }

  /** `remove` keeps exactly the records whose name differs from the argument ignoring
      case, and keeps their order. */
  lemma RemoveNamedKeeps(records: seq<Record>, name: string, r: Record)
    ensures r in RemoveNamed(records, name) <==> r in records && Lower(r.name) != Lower(name)
  {
    FilterMember(records, Survives(name), r);
  }

  /** Removing the same name twice is the same as removing it once. */
  lemma RemoveNamedIdempotent(records: seq<Record>, name: string)
    ensures RemoveNamed(RemoveNamed(records, name), name) == RemoveNamed(records, name)
  {
    FilterIdempotent(records, Survives(name));
  }

  /** Removing a name no record carries (in any case) leaves the list as it is. */
  lemma RemoveNamedAbsent(records: seq<Record>, name: string)
    requires forall r :: r in records ==> Lower(r.name) != Lower(name)
    ensures RemoveNamed(records, name) == records
  {
    assert forall i :: 0 <= i < |records| ==> records[i] in records;
    FilterAll(records, Survives(name));
  }

  /** Removing, by a name equal ignoring case, a record just added drops it and leaves the
      rest exactly as removing from the list before the add. */
  lemma AddThenRemove(records: seq<Record>, r: Record, name: string)
    requires Lower(name) == Lower(r.name)
    ensures RemoveNamed(records + [r], name) == RemoveNamed(records, name)
    ensures forall x :: x in RemoveNamed(records + [r], name) ==> Lower(x.name) != Lower(r.name)
  {
    FilterSnoc(records, r, Survives(name));
    forall x | x in RemoveNamed(records + [r], name) ensures Lower(x.name) != Lower(r.name) {
      RemoveNamedKeeps(records + [r], name, x);
    }
  }

  /** A write the service repository sends through `update` / `bulk_update`. The store
      behind those calls is not part of this model, so they are only recorded. */
  datatype Write = UpdateOne(record: Record) | BulkUpdate(records: seq<Record>)

  /** `PersistenceBackend`: one chat's JSON file. */
  class Store {
    const chatId: string
    const filename: string
    /** Whether the file exists. */
    var fileExists: bool
    /** The list the file holds. */
    var records: seq<Record>
    /** The `update` / `bulk_update` calls received, oldest first. */
    var writes: seq<Write>

    ghost predicate Valid()
      reads this
    {
      !fileExists ==> records == []
    }

    /** `PersistenceBackend.create(chat_id)`, bound to the file as it is on disk
        (`None`: no such file). */
    constructor Create(chatId: string, onDisk: Option<seq<Record>>)
      ensures Valid()
      ensures this.chatId == chatId && filename == FileName(chatId)
      ensures fileExists == onDisk.Some?
      ensures records == (if onDisk.Some? then onDisk.value else [])
      ensures writes == []
    {
      this.chatId := chatId;
      filename := FileName(chatId);
      fileExists := onDisk.Some?;
      records := if onDisk.Some? then onDisk.value else [];
      writes := [];
    }

    /** `_save`: the file now exists and holds `data`. */
    method Save(data: seq<Record>)
      modifies this
      ensures Valid()
      ensures fileExists && records == data
      ensures writes == old(writes)
    {
      fileExists := true;
      records := data;
    }

    /** `fetch_all`: the stored list; a missing file is created holding `[]`. */
    method FetchAll() returns (data: seq<Record>)
      requires Valid()
      modifies this
      ensures Valid() && fileExists
      ensures data == old(records) && records == old(records)
      ensures !old(fileExists) ==> data == []
      ensures writes == old(writes)
    {
      if fileExists {
        data := records;
      } else {
        Save([]);
        data := [];
      }
    }

    /** `add`: the stored list becomes the old one with the record appended. */
    method Add(record: Record)
      requires Valid()
      modifies this
      ensures Valid() && fileExists
      ensures records == old(records) + [record]
      ensures writes == old(writes)
    {
      var data := FetchAll();
      data := data + [record];
      Save(data);
    }

    /** `remove`: keeps the records whose name differs from `name` ignoring case. */
    method Remove(name: string)
      requires Valid()
      modifies this
      ensures Valid() && fileExists
      ensures records == RemoveNamed(old(records), name)
      ensures writes == old(writes)
    {
      var data := FetchAll();
      Save(RemoveNamed(data, name));
    }

    /** `update(service_to_update)` (record only). */
    method Update(record: Record)
      modifies this
      ensures Valid() <==> old(Valid())
      ensures writes == old(writes) + [UpdateOne(record)]
      ensures fileExists == old(fileExists) && records == old(records)
    {
      writes := writes + [UpdateOne(record)];
    }

    /** `bulk_update(services_to_update)` (record only). */
    method BulkUpdate(records: seq<Record>)
      modifies this
      ensures Valid() <==> old(Valid())
      ensures writes == old(writes) + [Write.BulkUpdate(records)]
      ensures fileExists == old(fileExists) && this.records == old(this.records)
    {
      writes := writes + [Write.BulkUpdate(records)];
    }
  }
}
