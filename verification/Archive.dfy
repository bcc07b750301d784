/**
  The per-user message archive: appending without duplicates, refreshing the
  fields the parser owns, and the cache of known message ids.
*/
module Archive {
  /** A JSON value: null, a string, or anything else by its text. */
  datatype Value = Null | Text(text: string) | Json(text: string)

  type Record = map<string, Value>

  const MESSAGE_ID := "message_id"

  /** `rec.get(f)`: a missing field and a null one look the same. */
  function Get(rec: Record, f: string): Value { if f in rec then rec[f] else Null }

  /** The record's id; "" when it has none. */
  function IdOf(rec: Record): string {
    if Get(rec, MESSAGE_ID).Null? then "" else Get(rec, MESSAGE_ID).text
  }

  /** Ids are strings, as the parser always makes them. */
  predicate TextId(rec: Record) { Get(rec, MESSAGE_ID).Text? || Get(rec, MESSAGE_ID).Null? }

  function IdsOf(records: seq<Record>): (ids: set<string>)
    ensures forall i :: 0 <= i < |records| && IdOf(records[i]) != "" ==> IdOf(records[i]) in ids
    ensures forall id :: id in ids ==> id != "" && exists i :: 0 <= i < |records| && IdOf(records[i]) == id
  {
    set rec | rec in records && IdOf(rec) != "" :: IdOf(rec)
  }

  predicate UniqueIds(records: seq<Record>) {
    forall i, j :: 0 <= i < j < |records| && IdOf(records[i]) != "" ==> IdOf(records[i]) != IdOf(records[j])
  }

  // -- appending --

  /** The records an append writes: those with an id not seen before, each once. */
  function New(ids: set<string>, records: seq<Record>): seq<Record>
    decreases |records|
  {
    if records == [] then []
    else
      var id := IdOf(records[0]);
      if id == "" || id in ids then New(ids, records[1..])
      else [records[0]] + New(ids + {id}, records[1..])
  }

  function Appended(file: seq<Record>, records: seq<Record>): seq<Record> { file + New(IdsOf(file), records) }

  lemma IdsConcat(a: seq<Record>, b: seq<Record>)
    ensures IdsOf(a + b) == IdsOf(a) + IdsOf(b)
  {
    forall rec ensures rec in a + b <==> rec in a || rec in b { }
  }

  lemma IdsOne(rec: Record)
    ensures IdsOf([rec]) == if IdOf(rec) == "" then {} else {IdOf(rec)}
  {
    assert rec in [rec];
  }

  lemma UniqueGrows(file: seq<Record>, rec: Record)
    requires UniqueIds(file) && IdOf(rec) !in IdsOf(file)
    ensures UniqueIds(file + [rec])
  {
    hide IdOf;
  }

  /** Appending keeps ids unique, and afterwards every id given is in the file. */
  lemma {:induction false} AppendedIds(file: seq<Record>, records: seq<Record>)
    ensures UniqueIds(file) ==> UniqueIds(Appended(file, records))
    ensures IdsOf(Appended(file, records)) == IdsOf(file) + IdsOf(records)
    decreases |records|
  {
    hide IdOf, IdsOf, UniqueIds;
    if records == [] {
      assert Appended(file, []) == file && IdsOf([]) == {};
    } else {
      var rec, rest := records[0], records[1..];
      IdsConcat([rec], rest);
      assert [rec] + rest == records;
      IdsOne(rec);
      if IdOf(rec) == "" || IdOf(rec) in IdsOf(file) {
        AppendedIds(file, rest);
        assert Appended(file, records) == Appended(file, rest);
      } else {
        if UniqueIds(file) { UniqueGrows(file, rec); }
        IdsConcat(file, [rec]);
        AppendedIds(file + [rec], rest);
        var more := New(IdsOf(file + [rec]), rest);
        assert New(IdsOf(file), records) == [rec] + more;
        assert file + ([rec] + more) == file + [rec] + more;
      }
    }
  }

  lemma {:induction false} NothingNew(ids: set<string>, records: seq<Record>)
    requires IdsOf(records) <= ids
    ensures New(ids, records) == []
    decreases |records|
  {
    if records != [] {
      assert records[0] in records;
      forall id | id in IdsOf(records[1..]) ensures id in ids {
        var i :| 0 <= i < |records[1..]| && IdOf(records[1..][i]) == id;
        assert records[i + 1] in records;
      }
      NothingNew(ids, records[1..]);
    }
  }

  // -- refreshing --

  /** The parsed record for each id, the last one winning. */
  function ById(parsed: seq<Record>): (m: map<string, Record>)
    ensures forall id :: id in m ==> id != "" && IdOf(m[id]) == id && m[id] in parsed
    ensures forall i :: 0 <= i < |parsed| && IdOf(parsed[i]) != "" ==> IdOf(parsed[i]) in m
    decreases |parsed|
  {
    if parsed == [] then map[]
    else
      var rec := parsed[|parsed| - 1];
      var m := ById(parsed[..|parsed| - 1]);
      if IdOf(rec) == "" then m else m[IdOf(rec) := rec]
  }

  /** The refresh loop over one record's fields. */
  function RefreshFrom(rec: Record, parsed: Record, fields: seq<string>): Record
    decreases |fields|
  {
    if fields == [] then rec
    else
      var f := fields[0];
      RefreshFrom(if f in parsed then rec[f := parsed[f]] else rec - {f}, parsed, fields[1..])
  }

  /** `str(rec.get("message_id"))` */
  function LookupId(rec: Record): string { if Get(rec, MESSAGE_ID).Null? then "None" else Get(rec, MESSAGE_ID).text }

  function Refreshed(rec: Record, parsed: map<string, Record>, fields: seq<string>): Record {
    if LookupId(rec) in parsed then RefreshFrom(rec, parsed[LookupId(rec)], fields) else rec
  }

  predicate Differ(a: Record, b: Record, fields: seq<string>) {
    exists f | f in fields :: Get(a, f) != Get(b, f)
  }

  /** The records a refresh counts as changed. */
  function Changes(file: seq<Record>, parsed: map<string, Record>, fields: seq<string>): nat {
    if file == [] then 0
    else
      (if Differ(file[0], Refreshed(file[0], parsed, fields), fields) then 1 else 0)
      + Changes(file[1..], parsed, fields)
  }

  function RefreshAll(file: seq<Record>, parsed: map<string, Record>, fields: seq<string>): (r: seq<Record>)
    ensures |r| == |file| && forall i :: 0 <= i < |file| ==> r[i] == Refreshed(file[i], parsed, fields)
  {
    if file == [] then [] else [Refreshed(file[0], parsed, fields)] + RefreshAll(file[1..], parsed, fields)
  }

  /** The file is rewritten only if something counted as changed. */
  function AfterRefresh(file: seq<Record>, parsed: map<string, Record>, fields: seq<string>): seq<Record> {
    if Changes(file, parsed, fields) > 0 then RefreshAll(file, parsed, fields) else file
  }

  /** A refresh makes the named fields the parsed ones and leaves every other field alone. */
  lemma {:induction false} RefreshSetsExactly(rec: Record, parsed: Record, fields: seq<string>, f: string)
    ensures var after := RefreshFrom(rec, parsed, fields);
      var want := if f in fields then parsed else rec;
      (f in after <==> f in want) && (f in after ==> after[f] == want[f])
    decreases |fields|
  {
    if fields != [] {
      var g := fields[0];
      var next := if g in parsed then rec[g := parsed[g]] else rec - {g};
      RefreshSetsExactly(next, parsed, fields[1..], f);
      assert f in fields <==> f == g || f in fields[1..];
    }
  }

  lemma RefreshKeepsId(rec: Record, parsed: map<string, Record>, fields: seq<string>)
    requires MESSAGE_ID !in fields
    ensures IdOf(Refreshed(rec, parsed, fields)) == IdOf(rec)
    ensures LookupId(Refreshed(rec, parsed, fields)) == LookupId(rec)
  {
    if LookupId(rec) in parsed { RefreshSetsExactly(rec, parsed[LookupId(rec)], fields, MESSAGE_ID); }
  }

  /** Refreshing a refreshed record again changes nothing. */
  lemma RefreshTwice(rec: Record, parsed: map<string, Record>, fields: seq<string>)
    requires MESSAGE_ID !in fields
    ensures var once := Refreshed(rec, parsed, fields); !Differ(once, Refreshed(once, parsed, fields), fields)
  {
    var once := Refreshed(rec, parsed, fields);
    RefreshKeepsId(rec, parsed, fields);
    if LookupId(rec) in parsed {
      var p := parsed[LookupId(rec)];
      forall f | f in fields ensures Get(once, f) == Get(Refreshed(once, parsed, fields), f) {
        RefreshSetsExactly(rec, p, fields, f);
        RefreshSetsExactly(once, p, fields, f);
      }
    }
  }

  lemma {:induction false} NoChanges(file: seq<Record>, parsed: map<string, Record>, fields: seq<string>)
    requires forall i :: 0 <= i < |file| ==> !Differ(file[i], Refreshed(file[i], parsed, fields), fields)
    ensures Changes(file, parsed, fields) == 0
  {
    hide Differ, Refreshed;
    if file != [] { NoChanges(file[1..], parsed, fields); }
  }

  /** After a refresh, refreshing with the same parsed records counts nothing as changed. */
  lemma RefreshSettles(file: seq<Record>, parsed: map<string, Record>, fields: seq<string>)
    requires MESSAGE_ID !in fields
    ensures Changes(AfterRefresh(file, parsed, fields), parsed, fields) == 0
  {
    hide Differ, Refreshed, Changes;
    if Changes(file, parsed, fields) > 0 {
      var after := RefreshAll(file, parsed, fields);
      forall i | 0 <= i < |after| ensures !Differ(after[i], Refreshed(after[i], parsed, fields), fields) {
        RefreshTwice(file[i], parsed, fields);
      }
      NoChanges(after, parsed, fields);
    }
  }

  /** Same messages in the same order, same ids. */
  lemma RefreshKeepsIds(file: seq<Record>, parsed: map<string, Record>, fields: seq<string>)
    requires MESSAGE_ID !in fields
    ensures var after := AfterRefresh(file, parsed, fields);
      && |after| == |file| && IdsOf(after) == IdsOf(file) && (UniqueIds(file) ==> UniqueIds(after))
      && forall i :: 0 <= i < |file| ==> IdOf(after[i]) == IdOf(file[i])
  {
    hide IdOf, Changes, Refreshed;
    var after := AfterRefresh(file, parsed, fields);
    forall i | 0 <= i < |file| ensures IdOf(after[i]) == IdOf(file[i]) { RefreshKeepsId(file[i], parsed, fields); }
    SameIds(after, file);
  }

  lemma SameIds(a: seq<Record>, b: seq<Record>)
    requires |a| == |b| && forall i :: 0 <= i < |a| ==> IdOf(a[i]) == IdOf(b[i])
    ensures IdsOf(a) == IdsOf(b) && (UniqueIds(b) ==> UniqueIds(a))
  {
    hide IdOf;
  }

  /** A field outside the list has the same value, or the same absence, as before. */
  lemma OtherFieldsKept(file: seq<Record>, parsed: map<string, Record>, fields: seq<string>, i: nat, f: string)
    requires i < |file| && f !in fields
    ensures var after := AfterRefresh(file, parsed, fields);
      |after| == |file| && (f in after[i] <==> f in file[i]) && (f in file[i] ==> after[i][f] == file[i][f])
  {
    var rec := file[i];
    if LookupId(rec) in parsed { RefreshSetsExactly(rec, parsed[LookupId(rec)], fields, f); }
  }

  lemma {:induction false} NewConcat(ids: set<string>, a: seq<Record>, rec: Record)
    ensures New(ids, a + [rec])
      == New(ids, a) + if IdOf(rec) == "" || IdOf(rec) in ids + IdsOf(New(ids, a)) then [] else [rec]
    decreases |a|
  {
    hide IdOf, IdsOf;
    if a == [] {
      assert a + [rec] == [rec] && [rec][1..] == [] && IdsOf([]) == {} && New(ids, [rec][1..]) == [];
    } else {
      assert (a + [rec])[1..] == a[1..] + [rec] && (a + [rec])[0] == a[0];
      var id := IdOf(a[0]);
      if id == "" || id in ids {
        NewConcat(ids, a[1..], rec);
      } else {
        NewConcat(ids + {id}, a[1..], rec);
        var more := New(ids + {id}, a[1..]);
        IdsConcat([a[0]], more);
        IdsOne(a[0]);
        assert ids + {id} + IdsOf(more) == ids + IdsOf([a[0]] + more);
      }
    }
  }

  /** The files on disk and the module's cache of the ids in them. */
  class Store {
    var files: map<string, seq<Record>>
    var cache: map<string, set<string>>

    ghost predicate Valid()
      reads this
    {
      forall user :: user in cache ==> cache[user] == IdsOf(File(user))
    }

    function File(user: string): seq<Record>
      reads this
    { if user in files then files[user] else [] }

    constructor (files: map<string, seq<Record>>)
      ensures Valid() && this.files == files && cache == map[]
    {
      this.files, cache := files, map[];
    }

    /** `_load_existing_ids` */
    method LoadExistingIds(user: string) returns (ids: set<string>)
      requires Valid()
      modifies this`cache
      ensures Valid() && cache == old(cache)[user := ids] && ids == IdsOf(File(user))
    {
      hide IdsOf;
      if user in cache {
        ids := cache[user];
        assert cache == cache[user := ids];
        return;
      }
      ids := {};
      if user in files {
        var lines := files[user];
        assert lines[..0] == [] && IdsOf([]) == {} by { NoIds(); }
        for i := 0 to |lines|
          invariant ids == IdsOf(lines[..i]) && unchanged(this)
        {
          assert lines[..i + 1] == lines[..i] + [lines[i]];
          IdsConcat(lines[..i], [lines[i]]);
          IdsOne(lines[i]);
          if IdOf(lines[i]) != "" { ids := ids + {IdOf(lines[i])}; }
        }
        assert lines[..|lines|] == lines;
      } else {
        NoIds();
      }
      cache := cache[user := ids];
    }

    /** Writes one record unless its id is known, keeping the cached ids in step. */
    method Write(user: string, record: Record) returns (added: bool)
      requires Valid() && user in cache && TextId(record)
      modifies this
      ensures Valid() && user in cache
      ensures added == (IdOf(record) != "" && IdOf(record) !in IdsOf(old(File(user))))
      ensures files == if added then old(files)[user := old(File(user)) + [record]] else old(files)
    {
      hide IdsOf;
      if IdOf(record) == "" || IdOf(record) in cache[user] { return false; }
      IdsConcat(File(user), [record]);
      IdsOne(record);
      files, cache := files[user := File(user) + [record]], cache[user := cache[user] + {IdOf(record)}];
      return true;
    }

    /** `append_message` */
    method AppendMessage(user: string, record: Record) returns (added: bool)
      requires Valid() && TextId(record)
      modifies this
      ensures Valid() && added == (IdOf(record) != "" && IdOf(record) !in IdsOf(old(File(user))))
      ensures files == if added then old(files)[user := old(File(user)) + [record]] else old(files)
    {
      hide IdsOf, IdOf;
      if IdOf(record) == "" { return false; }
      var ids := LoadExistingIds(user);
      added := Write(user, record);
    }

    /** The loop of `append_messages`: after every record the cached ids are the file's. */
    method AppendEach(user: string, records: seq<Record>) returns (appended: nat)
      requires Valid() && user in cache && user in files
      requires forall i :: 0 <= i < |records| ==> TextId(records[i])
      modifies this
      ensures Valid() && appended == |New(IdsOf(old(File(user))), records)|
      ensures files == old(files)[user := Appended(old(File(user)), records)]
    {
      hide IdsOf, New, IdOf, TextId, Appended;
      ghost var was, before := File(user), files;
      NothingAppended(was);
      assert records[..0] == [] && files == before[user := was];
      appended := 0;
      for i := 0 to |records|
        invariant Valid() && user in cache && files == before[user := Appended(was, records[..i])]
        invariant appended == |New(IdsOf(was), records[..i])|
      {
        assert records[..i + 1] == records[..i] + [records[i]];
        OneMoreAppended(was, records[..i], records[i]);
        assert File(user) == Appended(was, records[..i]);
        ghost var now := files;
        var added := Write(user, records[i]);
        assert files == now[user := Appended(was, records[..i + 1])];
        assert now[user := Appended(was, records[..i + 1])] == before[user := Appended(was, records[..i + 1])];
        if added { appended := appended + 1; }
      }
      assert records[..|records|] == records;
    }

    /** `append_messages` */
    method AppendMessages(user: string, records: seq<Record>) returns (appended: nat)
      requires Valid() && forall i :: 0 <= i < |records| ==> TextId(records[i])
      modifies this
      ensures Valid()
      ensures appended == |New(IdsOf(old(File(user))), records)|
      ensures files == if records == [] then old(files) else old(files)[user := Appended(old(File(user)), records)]
    {
      hide IdsOf, New, IdOf, TextId, Appended;
      NothingAppended(File(user));
      if records == [] { return 0; }
      ghost var was := File(user);
      var ids := LoadExistingIds(user);
      files := files[user := File(user)];
      appended := AppendEach(user, records);
      assert files == old(files)[user := Appended(was, records)];
    }

    /** `refresh_fields`, through `update_records` and `rewrite_archive`. */
    method RefreshFields(user: string, parsed: seq<Record>, fields: seq<string>) returns (changed: nat)
      requires Valid() && MESSAGE_ID !in fields
      modifies this`files
      ensures Valid()
      ensures changed == Changes(old(File(user)), ById(parsed), fields)
      ensures files == if changed == 0 then old(files)
        else old(files)[user := AfterRefresh(old(File(user)), ById(parsed), fields)]
    {
      hide IdsOf, IdOf, Differ, Refreshed, Changes, RefreshAll;
      var known := ById(parsed);
      var records;
      RefreshKeepsIds(File(user), known, fields);
      records, changed := RefreshRecords(File(user), known, fields);
      if changed > 0 { files := files[user := records]; }
    }
  }

  /** The change `refresh_fields` applies to the loaded records, one after the other in place. */
  method RefreshRecords(file: seq<Record>, known: map<string, Record>, fields: seq<string>)
    returns (records: seq<Record>, changed: nat)
    ensures records == RefreshAll(file, known, fields) && changed == Changes(file, known, fields)
  {
    hide Differ, Refreshed, Changes, RefreshAll;
    records, changed := file, 0;
    NoChangesYet(known, fields);
    for i := 0 to |file|
      invariant |records| == |file| && records[..i] == RefreshAll(file[..i], known, fields) && records[i..] == file[i..]
      invariant changed == Changes(file[..i], known, fields)
    {
      var rec := records[i];
      assert rec == records[i..][0] == file[i];
      var after := RefreshRecord(rec, known, fields);
      assert file[..i + 1] == file[..i] + [rec];
      OneMore(file[..i], rec, known, fields);
      if Differ(rec, after, fields) { changed := changed + 1; }
      ghost var was := records;
      records := records[i := after];
      assert records[..i + 1] == was[..i] + [after];
      assert records[i + 1..] == was[i..][1..] == file[i..][1..] == file[i + 1..];
    }
    assert file[..|file|] == file && records[..|file|] == records;
  }

  lemma NoIds()
    ensures IdsOf([]) == {}
  {
  }

  lemma NothingAppended(file: seq<Record>)
    ensures New(IdsOf(file), []) == [] && Appended(file, []) == file
  {
  }

  lemma OneMoreAppended(file: seq<Record>, done: seq<Record>, rec: Record)
    ensures var added := IdOf(rec) != "" && IdOf(rec) !in IdsOf(Appended(file, done));
      && Appended(file, done + [rec]) == (if added then Appended(file, done) + [rec] else Appended(file, done))
      && |New(IdsOf(file), done + [rec])| == |New(IdsOf(file), done)| + if added then 1 else 0
  {
    hide IdsOf, New, IdOf;
    NewConcat(IdsOf(file), done, rec);
    IdsConcat(file, New(IdsOf(file), done));
  }

  lemma NoChangesYet(parsed: map<string, Record>, fields: seq<string>)
    ensures Changes([], parsed, fields) == 0 && RefreshAll([], parsed, fields) == []
  {
  }

  lemma {:induction false} OneMore(file: seq<Record>, rec: Record, parsed: map<string, Record>, fields: seq<string>)
    ensures RefreshAll(file + [rec], parsed, fields)
         == RefreshAll(file, parsed, fields) + [Refreshed(rec, parsed, fields)]
    ensures Changes(file + [rec], parsed, fields)
      == Changes(file, parsed, fields) + if Differ(rec, Refreshed(rec, parsed, fields), fields) then 1 else 0
  {
    hide Differ, Refreshed;
    if file == [] {
      assert file + [rec] == [rec] && [rec][1..] == [];
    } else {
      assert (file + [rec])[1..] == file[1..] + [rec];
      OneMore(file[1..], rec, parsed, fields);
    }
  }

  /** The body of the refresh loop. */
  method RefreshRecord(rec: Record, known: map<string, Record>, fields: seq<string>) returns (after: Record)
    ensures after == Refreshed(rec, known, fields)
  {
    after := rec;
    if LookupId(rec) !in known { return; }
    var parsed := known[LookupId(rec)];
    for k := 0 to |fields|
      invariant RefreshFrom(after, parsed, fields[k..]) == RefreshFrom(rec, parsed, fields)
    {
      var f := fields[k];
      assert fields[k..][0] == f && fields[k..][1..] == fields[k + 1..];
      after := if f in parsed then after[f := parsed[f]] else after - {f};
    }
    assert fields[|fields|..] == [];
  }
}
