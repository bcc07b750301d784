/** Re-parsing every raw export into the archive. */
module Reparse {
  import opened Wrappers
  import opened Archive

  const PARSER_OWNED_FIELDS := ["type", "reference", "is_pinned", "mentions"]

  // -- dictionaries in insertion order --

  type Dict<V> = seq<(string, V)>

  function Find<V>(d: Dict<V>, key: string): Option<V> {
    if d == [] then None else if d[0].0 == key then Some(d[0].1) else Find(d[1..], key)
  }

  /** `d[key] = v`: a key already there keeps its place. */
  function Put<V>(d: Dict<V>, key: string, v: V): (r: Dict<V>)
    ensures forall k :: Find(r, k) == if k == key then Some(v) else Find(d, k)
  {
    if d == [] then [(key, v)]
    else if d[0].0 == key then [(key, v)] + d[1..]
    else [d[0]] + Put(d[1..], key, v)
  }

  predicate DistinctKeys<V>(d: Dict<V>) { forall i, j :: 0 <= i < j < |d| ==> d[i].0 != d[j].0 }

  lemma {:induction false} FoundOrNot<V>(d: Dict<V>, key: string)
    ensures Find(d, key).None? ==> forall i :: 0 <= i < |d| ==> d[i].0 != key
  {
    if d != [] { FoundOrNot(d[1..], key); }
  }

  lemma {:induction false} PutShape<V>(d: Dict<V>, key: string, v: V)
    ensures Find(d, key).None? ==> Put(d, key, v) == d + [(key, v)]
    ensures Find(d, key).Some? ==> |Put(d, key, v)| == |d| && forall i :: 0 <= i < |d| ==> Put(d, key, v)[i].0 == d[i].0
  {
    if d != [] && d[0].0 != key {
      PutShape(d[1..], key, v);
      assert d == [d[0]] + d[1..];
    }
  }

  lemma PutKeepsDistinct<V>(d: Dict<V>, key: string, v: V)
    requires DistinctKeys(d)
    ensures DistinctKeys(Put(d, key, v))
  {
    hide Put, Find;
    FoundOrNot(d, key);
    PutShape(d, key, v);
  }

  // -- gathering --

  predicate Excluded(rec: Record, channels: seq<string>) {
    || (Get(rec, "channel_id").Text? && Get(rec, "channel_id").text in channels)
    || (Get(rec, "channel_name").Text? && Get(rec, "channel_name").text in channels)
  }

  function AddAll(byId: Dict<Record>, records: seq<Record>, channels: seq<string>): Dict<Record> {
    if records == [] then byId
    else
      var rec := records[|records| - 1];
      var d := AddAll(byId, records[..|records| - 1], channels);
      if Excluded(rec, channels) then d else Put(d, IdOf(rec), rec)
  }

  function Or<V>(o: Option<V>, v: V): V { if o.Some? then o.value else v }

  /** One user's records in one export. */
  type Group = (string, seq<Record>)

  /** Every user's records by id, exports taken in order. */
  function Collect(groups: seq<Group>, channels: seq<string>): Dict<Dict<Record>> {
    if groups == [] then []
    else
      var g := groups[|groups| - 1];
      var d := Collect(groups[..|groups| - 1], channels);
      Put(d, g.0, AddAll(Or(Find(d, g.0), []), g.1, channels))
  }

  /** The last record with this id that is not excluded. */
  function LastIn(records: seq<Record>, id: string, channels: seq<string>): Option<Record> {
    if records == [] then None
    else
      var rec := records[|records| - 1];
      if IdOf(rec) == id && !Excluded(rec, channels) then Some(rec) else LastIn(records[..|records| - 1], id, channels)
  }

  /** The last such record of this user over all exports. */
  function LastExported(groups: seq<Group>, user: string, id: string, channels: seq<string>): Option<Record> {
    if groups == [] then None
    else
      var g := groups[|groups| - 1];
      var earlier := groups[..|groups| - 1];
      if g.0 == user && LastIn(g.1, id, channels).Some? then LastIn(g.1, id, channels)
      else LastExported(earlier, user, id, channels)
  }

  lemma {:induction false} AddAllFinds(byId: Dict<Record>, records: seq<Record>, channels: seq<string>, id: string)
    ensures Find(AddAll(byId, records, channels), id)
      == if LastIn(records, id, channels).Some? then LastIn(records, id, channels) else Find(byId, id)
  {
    hide Excluded, IdOf;
    if records != [] { AddAllFinds(byId, records[..|records| - 1], channels, id); }
  }

  /** Of a message exported more than once, the record of the last export is the one gathered. */
  lemma {:induction false} LatestExportWins(groups: seq<Group>, channels: seq<string>, user: string, id: string)
    ensures Find(Or(Find(Collect(groups, channels), user), []), id) == LastExported(groups, user, id, channels)
  {
    hide AddAll, LastIn;
    if groups != [] {
      var g := groups[|groups| - 1];
      var d := Collect(groups[..|groups| - 1], channels);
      LatestExportWins(groups[..|groups| - 1], channels, user, id);
      AddAllFinds(Or(Find(d, g.0), []), g.1, channels, id);
    }
  }

  // -- writing --

  predicate Before(a: string, b: string) {
    a == "" || (b != "" && (a[0] < b[0] || (a[0] == b[0] && Before(a[1..], b[1..]))))
  }

  function Timestamp(rec: Record): string { if Get(rec, "timestamp").Null? then "" else Get(rec, "timestamp").text }

  /** By timestamp, then by id. */
  predicate Precedes(a: Record, b: Record) {
    if Timestamp(a) == Timestamp(b) then Before(IdOf(a), IdOf(b)) else Before(Timestamp(a), Timestamp(b))
  }

  function Insert(rec: Record, sorted: seq<Record>): (r: seq<Record>)
    ensures multiset(r) == multiset(sorted) + multiset{rec}
  {
    if sorted == [] then [rec]
    else if Precedes(sorted[0], rec) then
      assert sorted == [sorted[0]] + sorted[1..];
      [sorted[0]] + Insert(rec, sorted[1..])
    else [rec] + sorted
  }

  function SortedValues(d: Dict<Record>): (r: seq<Record>)
    ensures |r| == |d| && multiset(r) == multiset(Values(d))
  {
    if d == [] then []
    else
      assert d == d[..|d| - 1] + [d[|d| - 1]];
      assert Values(d) == Values(d[..|d| - 1]) + [d[|d| - 1].1];
      var r := Insert(d[|d| - 1].1, SortedValues(d[..|d| - 1]));
      assert |r| == |multiset(r)|;
      r
  }

  function Values(d: Dict<Record>): (r: seq<Record>)
    ensures |r| == |d| && forall i :: 0 <= i < |d| ==> r[i] == d[i].1
  {
    if d == [] then [] else [d[0].1] + Values(d[1..])
  }

  type Files = map<string, seq<Record>>

  function FileIn(files: Files, user: string): seq<Record> { if user in files then files[user] else [] }

  /** What one user's file becomes. */
  function After(file: seq<Record>, records: seq<Record>): seq<Record> {
    AfterRefresh(Appended(file, records), ById(records), PARSER_OWNED_FIELDS)
  }

  function Put1(files: Files, user: string, records: seq<Record>): Files {
    if records == [] then files else files[user := After(FileIn(files, user), records)]
  }

  /** All files once every user's records, in this order, have been written. */
  function Written(files: Files, work: seq<Group>): Files {
    if work == [] then files
    else var g := work[|work| - 1]; Put1(Written(files, work[..|work| - 1]), g.0, g.1)
  }

  function AppendCount(files: Files, work: seq<Group>): nat {
    if work == [] then 0
    else
      var g, done := work[|work| - 1], work[..|work| - 1];
      AppendCount(files, done) + |New(IdsOf(FileIn(Written(files, done), g.0)), g.1)|
  }

  function RefreshCount(files: Files, work: seq<Group>): nat {
    if work == [] then 0
    else
      var g, done := work[|work| - 1], work[..|work| - 1];
      RefreshCount(files, done)
      + Changes(Appended(FileIn(Written(files, done), g.0), g.1), ById(g.1), PARSER_OWNED_FIELDS)
  }

  function Work(latest: Dict<Dict<Record>>): (r: seq<Group>)
    ensures |r| == |latest| && forall i :: 0 <= i < |r| ==> r[i] == (latest[i].0, SortedValues(latest[i].1))
  {
    seq(|latest|, i requires 0 <= i < |latest| => (latest[i].0, SortedValues(latest[i].1)))
  }

  // -- idempotence --

  /** The file already holds these records as the parser gives them. */
  predicate Settled(file: seq<Record>, records: seq<Record>) {
    New(IdsOf(file), records) == [] && Changes(file, ById(records), PARSER_OWNED_FIELDS) == 0
  }

  lemma WrittenIsSettled(file: seq<Record>, records: seq<Record>)
    ensures Settled(After(file, records), records)
  {
    hide Changes, AfterRefresh, New, IdsOf, ById;
    AppendedIds(file, records);
    RefreshKeepsIds(Appended(file, records), ById(records), PARSER_OWNED_FIELDS);
    RefreshSettles(Appended(file, records), ById(records), PARSER_OWNED_FIELDS);
    NothingNew(IdsOf(After(file, records)), records);
  }

  lemma SettledStays(file: seq<Record>, records: seq<Record>)
    requires Settled(file, records)
    ensures After(file, records) == file && Appended(file, records) == file
  {
    hide Changes, New, IdsOf, ById;
    assert file + [] == file;
  }

  /** With one entry per user, each file is written once, from what it was at the start. */
  lemma {:induction false} WrittenFile(files: Files, work: seq<Group>, i: nat)
    requires DistinctKeys(work) && i < |work|
    ensures FileIn(Written(files, work), work[i].0)
      == if work[i].1 == [] then FileIn(files, work[i].0) else After(FileIn(files, work[i].0), work[i].1)
  {
    hide After;
    var done, last := work[..|work| - 1], work[|work| - 1];
    if i < |done| {
      WrittenFile(files, done, i);
      assert done[i].0 != last.0;
    } else {
      UntouchedFile(files, done, last.0);
    }
  }

  lemma {:induction false} UntouchedFile(files: Files, work: seq<Group>, user: string)
    requires forall i :: 0 <= i < |work| ==> work[i].0 != user
    ensures FileIn(Written(files, work), user) == FileIn(files, user)
    ensures user in Written(files, work) <==> user in files
  {
    hide After;
    if work != [] { UntouchedFile(files, work[..|work| - 1], user); }
  }

  lemma {:induction false} WrittenUsers(files: Files, work: seq<Group>, i: nat)
    requires i < |work| && work[i].1 != []
    ensures work[i].0 in Written(files, work)
  {
    hide After;
    if i < |work| - 1 { WrittenUsers(files, work[..|work| - 1], i); }
  }

  lemma {:induction false} SettledFilesStay(files: Files, work: seq<Group>)
    requires forall i :: 0 <= i < |work| && work[i].1 != [] ==>
      work[i].0 in files && Settled(files[work[i].0], work[i].1)
    ensures Written(files, work) == files && AppendCount(files, work) == 0 && RefreshCount(files, work) == 0
  {
    hide Settled, After, New, Changes, Appended, IdsOf, ById;
    if work != [] {
      var done, last := work[..|work| - 1], work[|work| - 1];
      SettledFilesStay(files, done);
      NothingForNobody(FileIn(files, last.0));
      if last.1 != [] {
        SettledStays(files[last.0], last.1);
        SettledParts(files[last.0], last.1);
        assert files == files[last.0 := files[last.0]];
      }
    }
  }

  lemma NothingForNobody(file: seq<Record>)
    ensures New(IdsOf(file), []) == [] && Changes(Appended(file, []), ById([]), PARSER_OWNED_FIELDS) == 0
  {
    forall i | 0 <= i < |Appended(file, [])|
      ensures var rec := Appended(file, [])[i];
        !Differ(rec, Refreshed(rec, ById([]), PARSER_OWNED_FIELDS), PARSER_OWNED_FIELDS)
    {
    }
    NoChanges(Appended(file, []), ById([]), PARSER_OWNED_FIELDS);
  }

  lemma {:induction false} SettledParts(file: seq<Record>, records: seq<Record>)
    requires Settled(file, records)
    ensures New(IdsOf(file), records) == [] && Changes(Appended(file, records), ById(records), PARSER_OWNED_FIELDS) == 0
  {
    SettledStays(file, records);
  }

  /** A second run over the same exports appends nothing, refreshes nothing and leaves every file as it was. */
  lemma {:induction false} ReparseIsIdempotent(files: Files, work: seq<Group>)
    requires DistinctKeys(work)
    ensures var once := Written(files, work);
      Written(once, work) == once && AppendCount(once, work) == 0 && RefreshCount(once, work) == 0
  {
    hide Settled, After, Written;
    var once := Written(files, work);
    forall i | 0 <= i < |work| && work[i].1 != [] ensures work[i].0 in once && Settled(once[work[i].0], work[i].1) {
      WrittenUsers(files, work, i);
      WrittenFile(files, work, i);
      WrittenIsSettled(FileIn(files, work[i].0), work[i].1);
    }
    SettledFilesStay(once, work);
  }

  // -- what a run keeps and what it brings up to date --

  /** Every message stays where it was, and only the parser's own fields of it can change. */
  lemma {:induction false} ReparseKeepsTheRest(files: Files, work: seq<Group>, user: string, i: nat, f: string)
    requires i < |FileIn(files, user)| && f !in PARSER_OWNED_FIELDS
    ensures var was, now := FileIn(files, user), FileIn(Written(files, work), user);
      |was| <= |now| && (f in now[i] <==> f in was[i]) && (f in was[i] ==> now[i][f] == was[i][f])
  {
    hide New, AfterRefresh;
    if work != [] {
      var done, last := work[..|work| - 1], work[|work| - 1];
      ReparseKeepsTheRest(files, done, user, i, f);
      if last.0 == user && last.1 != [] {
        var mid := FileIn(Written(files, done), user);
        assert Appended(mid, last.1)[i] == mid[i];
        OtherFieldsKept(Appended(mid, last.1), ById(last.1), PARSER_OWNED_FIELDS, i, f);
      }
    }
  }

  /** Ids stay unique in every file. */
  lemma {:induction false} ReparseKeepsIdsUnique(files: Files, work: seq<Group>, user: string)
    requires UniqueIds(FileIn(files, user))
    ensures UniqueIds(FileIn(Written(files, work), user))
  {
    hide UniqueIds, After, FileIn;
    if work != [] {
      ReparseKeepsIdsUnique(files, work[..|work| - 1], user);
      LastWritten(files, work, user);
      AfterKeepsIdsUnique(FileIn(Written(files, work[..|work| - 1]), user), work[|work| - 1].1);
    }
  }

  lemma LastWritten(files: Files, work: seq<Group>, user: string)
    requires work != []
    ensures var was, g := FileIn(Written(files, work[..|work| - 1]), user), work[|work| - 1];
      FileIn(Written(files, work), user) == if g.0 == user && g.1 != [] then After(was, g.1) else was
  {
    hide After;
  }

  lemma AfterKeepsIdsUnique(file: seq<Record>, records: seq<Record>)
    requires UniqueIds(file)
    ensures UniqueIds(After(file, records))
  {
    hide UniqueIds, AfterRefresh, Appended;
    AppendedIds(file, records);
    RefreshKeepsIds(Appended(file, records), ById(records), PARSER_OWNED_FIELDS);
  }

  lemma {:induction false} UnchangedRecord(file: seq<Record>, parsed: map<string, Record>, fields: seq<string>, i: nat)
    requires i < |file| && Changes(file, parsed, fields) == 0
    ensures !Differ(file[i], Refreshed(file[i], parsed, fields), fields)
  {
    hide Differ, Refreshed;
    if i > 0 { UnchangedRecord(file[1..], parsed, fields, i - 1); }
  }

  /** After a run every exported message is archived once and reads, in the parser's fields, as it was last parsed. */
  lemma {:induction false} ReparseBringsUpToDate(file: seq<Record>, records: seq<Record>, id: string, f: string)
    returns (i: nat)
    requires id in ById(records) && f in PARSER_OWNED_FIELDS
    ensures i < |After(file, records)| && IdOf(After(file, records)[i]) == id
    ensures Get(After(file, records)[i], f) == Get(ById(records)[id], f)
  {
    hide Changes, AfterRefresh, New, IdsOf, ById, Refreshed, Differ, Get, IdOf;
    var now, parsed := After(file, records), ById(records);
    assert id in IdsOf(records) by { ParsedIds(records, id); }
    AppendedIds(file, records);
    RefreshKeepsIds(Appended(file, records), parsed, PARSER_OWNED_FIELDS);
    i :| 0 <= i < |now| && IdOf(now[i]) == id;
    WrittenIsSettled(file, records);
    UnchangedRecord(now, parsed, PARSER_OWNED_FIELDS, i);
    ParsedIds(records, id);
    UnchangedField(now[i], parsed, id, f);
  }

  lemma UnchangedField(rec: Record, parsed: map<string, Record>, id: string, f: string)
    requires IdOf(rec) == id != "" && id in parsed && f in PARSER_OWNED_FIELDS
    requires !Differ(rec, Refreshed(rec, parsed, PARSER_OWNED_FIELDS), PARSER_OWNED_FIELDS)
    ensures Get(rec, f) == Get(parsed[id], f)
  {
    assert LookupId(rec) == id;
    RefreshSetsExactly(rec, parsed[id], PARSER_OWNED_FIELDS, f);
    assert Get(rec, f) == Get(Refreshed(rec, parsed, PARSER_OWNED_FIELDS), f);
  }

  lemma ParsedIds(records: seq<Record>, id: string)
    requires id in ById(records)
    ensures id in IdsOf(records) && id != ""
  {
    var j :| 0 <= j < |records| && records[j] == ById(records)[id];
  }

  // -- the endpoint --

  predicate TextIds(records: seq<Record>) { forall i :: 0 <= i < |records| ==> TextId(records[i]) }

  predicate TextValues(d: Dict<Record>) { forall i :: 0 <= i < |d| ==> TextId(d[i].1) }

  predicate TextLatest(d: Dict<Dict<Record>>) { forall i :: 0 <= i < |d| ==> TextValues(d[i].1) }

  lemma {:induction false} AddText(d: Dict<Record>, key: string, rec: Record)
    requires TextValues(d) && TextId(rec)
    ensures TextValues(Put(d, key, rec))
  {
    hide TextId;
    if d != [] && d[0].0 != key { AddText(d[1..], key, rec); }
  }

  lemma {:induction false} AddAllText(byId: Dict<Record>, records: seq<Record>, channels: seq<string>)
    requires TextValues(byId) && TextIds(records)
    ensures TextValues(AddAll(byId, records, channels))
  {
    hide TextId, Excluded, IdOf;
    if records != [] {
      var d := AddAll(byId, records[..|records| - 1], channels);
      AddAllText(byId, records[..|records| - 1], channels);
      AddText(d, IdOf(records[|records| - 1]), records[|records| - 1]);
    }
  }

  lemma {:induction false} PutText(d: Dict<Dict<Record>>, key: string, v: Dict<Record>)
    requires TextLatest(d) && TextValues(v)
    ensures TextLatest(Put(d, key, v))
  {
    hide TextValues;
    if d != [] && d[0].0 != key { PutText(d[1..], key, v); }
  }

  lemma {:induction false} FindText(d: Dict<Dict<Record>>, key: string)
    requires TextLatest(d)
    ensures TextValues(Or(Find(d, key), []))
  {
    hide TextId;
    if d != [] && d[0].0 != key { FindText(d[1..], key); }
  }

  /** Collecting gives one entry per user, holding text ids only if the exports do. */
  lemma {:induction false} CollectIsGood(groups: seq<Group>, channels: seq<string>)
    requires forall i :: 0 <= i < |groups| ==> TextIds(groups[i].1)
    ensures DistinctKeys(Collect(groups, channels)) && TextLatest(Collect(groups, channels))
  {
    hide TextIds, TextLatest, TextValues, AddAll;
    if groups == [] {
      NothingText();
    } else {
      var g := groups[|groups| - 1];
      var d := Collect(groups[..|groups| - 1], channels);
      CollectIsGood(groups[..|groups| - 1], channels);
      var byId := AddAll(Or(Find(d, g.0), []), g.1, channels);
      FindText(d, g.0);
      AddAllText(Or(Find(d, g.0), []), g.1, channels);
      PutKeepsDistinct(d, g.0, byId);
      PutText(d, g.0, byId);
    }
  }

  lemma NothingText()
    ensures TextLatest([])
  {
  }

  lemma {:induction false} SortedText(d: Dict<Record>)
    requires TextValues(d)
    ensures TextIds(SortedValues(d))
  {
    hide TextId;
    var r := SortedValues(d);
    forall i | 0 <= i < |r| ensures TextId(r[i]) {
      assert r[i] in multiset(r) && r[i] in multiset(Values(d));
      var j :| 0 <= j < |Values(d)| && Values(d)[j] == r[i];
    }
  }

  /** The inner loop over one user's records in one export. */
  method AddRecords(byId: Dict<Record>, records: seq<Record>, channels: seq<string>)
    returns (d: Dict<Record>, excluded: nat)
    ensures d == AddAll(byId, records, channels) && excluded <= |records|
  {
    d, excluded := byId, 0;
    for i := 0 to |records|
      invariant d == AddAll(byId, records[..i], channels) && excluded <= i
    {
      assert records[..i + 1][..i] == records[..i];
      if Excluded(records[i], channels) {
        excluded := excluded + 1;
      } else {
        d := Put(d, IdOf(records[i]), records[i]);
      }
    }
    assert records[..|records|] == records;
  }

  function Flat(exports: seq<seq<Group>>): seq<Group> {
    if exports == [] then [] else Flat(exports[..|exports| - 1]) + exports[|exports| - 1]
  }

  lemma OneMoreCollected(groups: seq<Group>, g: Group, channels: seq<string>)
    ensures var d := Collect(groups, channels);
      Collect(groups + [g], channels) == Put(d, g.0, AddAll(Or(Find(d, g.0), []), g.1, channels))
  {
    hide AddAll, Put, Find;
    assert (groups + [g])[..|groups|] == groups;
  }

  lemma NothingCollected(channels: seq<string>)
    ensures Collect([], channels) == [] && Flat([]) == []
  {
  }

  /** The gathering loops of `reparse`. */
  method Gather(exports: seq<seq<Group>>, channels: seq<string>) returns (latest: Dict<Dict<Record>>)
    ensures latest == Collect(Flat(exports), channels)
  {
    hide AddAll, Put, Find, Collect;
    latest := [];
    NothingCollected(channels);
    for e := 0 to |exports|
      invariant latest == Collect(Flat(exports[..e]), channels)
    {
      assert exports[..e + 1][..e] == exports[..e];
      var groups := exports[e];
      ghost var before := Flat(exports[..e]);
      assert before + groups[..0] == before;
      for i := 0 to |groups|
        invariant latest == Collect(before + groups[..i], channels)
      {
        assert before + groups[..i + 1] == before + groups[..i] + [groups[i]];
        OneMoreCollected(before + groups[..i], groups[i], channels);
        var byId, excluded := AddRecords(Or(Find(latest, groups[i].0), []), groups[i].1, channels);
        latest := Put(latest, groups[i].0, byId);
      }
      assert groups[..|groups|] == groups;
    }
    assert exports[..|exports|] == exports;
  }

  /** One user's turn in the writing loop. */
  method WriteUser(store: Store, user: string, records: seq<Record>) returns (appended: nat, refreshed: nat)
    requires store.Valid() && TextIds(records)
    modifies store
    ensures store.Valid() && store.files == Put1(old(store.files), user, records)
    ensures appended == |New(IdsOf(FileIn(old(store.files), user)), records)|
    ensures refreshed == Changes(Appended(FileIn(old(store.files), user), records), ById(records), PARSER_OWNED_FIELDS)
  {
    hide New, IdsOf, Changes, ById, TextId, Refreshed, RefreshAll;
    ghost var file := FileIn(store.files, user);
    appended := store.AppendMessages(user, records);
    assert store.File(user) == Appended(file, records) by { NothingAppended(file); }
    ghost var mid := store.files;
    refreshed := store.RefreshFields(user, records, PARSER_OWNED_FIELDS);
    if records == [] {
      NothingForNobody(file);
    } else {
      assert mid[user := After(file, records)] == old(store.files)[user := After(file, records)];
    }
  }

  lemma OneMoreWritten(files: Files, work: seq<Group>, i: nat)
    requires i < |work|
    ensures var done, g := Written(files, work[..i]), work[i];
      && Written(files, work[..i + 1]) == Put1(done, g.0, g.1)
      && AppendCount(files, work[..i + 1]) == AppendCount(files, work[..i]) + |New(IdsOf(FileIn(done, g.0)), g.1)|
      && RefreshCount(files, work[..i + 1])
        == RefreshCount(files, work[..i]) + Changes(Appended(FileIn(done, g.0), g.1), ById(g.1), PARSER_OWNED_FIELDS)
  {
    hide New, IdsOf, Changes, ById, Put1, Appended;
    assert work[..i + 1][..i] == work[..i];
  }

  /** The writing loop of `reparse`. */
  method WriteAll(store: Store, latest: Dict<Dict<Record>>) returns (appended: nat, refreshed: nat)
    requires store.Valid() && TextLatest(latest)
    modifies store
    ensures store.Valid() && store.files == Written(old(store.files), Work(latest))
    ensures appended == AppendCount(old(store.files), Work(latest))
    ensures refreshed == RefreshCount(old(store.files), Work(latest))
  {
    hide New, IdsOf, Changes, ById, TextIds, TextValues, Put1, SortedValues, Appended, Written, AppendCount,
         RefreshCount;
    appended, refreshed := 0, 0;
    ghost var files, work := store.files, Work(latest);
    NothingWritten(files);
    for i := 0 to |latest|
      invariant store.Valid() && store.files == Written(files, work[..i])
      invariant appended == AppendCount(files, work[..i]) && refreshed == RefreshCount(files, work[..i])
    {
      SortedText(latest[i].1);
      OneMoreWritten(files, work, i);
      var a, r := WriteUser(store, latest[i].0, SortedValues(latest[i].1));
      appended, refreshed := appended + a, refreshed + r;
    }
    assert work[..|latest|] == work;
  }

  lemma NothingWritten(files: Files)
    ensures Written(files, []) == files && AppendCount(files, []) == 0 && RefreshCount(files, []) == 0
  {
  }

  /** Every user's records as they will be written, for these exports. */
  function WorkOf(exports: seq<seq<Group>>, channels: seq<string>): seq<Group> {
    Work(Collect(Flat(exports), channels))
  }

  /** The files after a run over these exports. */
  function AfterReparse(files: Files, exports: seq<seq<Group>>, channels: seq<string>): Files {
    Written(files, WorkOf(exports, channels))
  }

  /** `reparse`: what it reports and what it leaves on disk. */
  method Run(store: Store, exports: seq<seq<Group>>, channels: seq<string>) returns (appended: nat, refreshed: nat)
    requires store.Valid() && forall i :: 0 <= i < |Flat(exports)| ==> TextIds(Flat(exports)[i].1)
    modifies store
    ensures store.Valid()
    ensures store.files == AfterReparse(old(store.files), exports, channels)
    ensures appended == AppendCount(old(store.files), WorkOf(exports, channels))
    ensures refreshed == RefreshCount(old(store.files), WorkOf(exports, channels))
  {
    hide TextIds, TextLatest, Collect, Flat, Written, AppendCount, RefreshCount, Work;
    var latest := Gather(exports, channels);
    CollectIsGood(Flat(exports), channels);
    appended, refreshed := WriteAll(store, latest);
  }

  // -- runs over the same exports --

  lemma {:induction false} CollectIsDistinct(groups: seq<Group>, channels: seq<string>)
    ensures DistinctKeys(Collect(groups, channels))
  {
    hide AddAll;
    if groups != [] {
      var g, earlier := groups[|groups| - 1], groups[..|groups| - 1];
      CollectIsDistinct(earlier, channels);
      var d := Collect(earlier, channels);
      PutKeepsDistinct(d, g.0, AddAll(Or(Find(d, g.0), []), g.1, channels));
    }
  }

  /** A second run over the same exports reports nothing and leaves every file as the first one left it. */
  lemma {:induction false} SecondRunDoesNothing(files: Files, exports: seq<seq<Group>>, channels: seq<string>)
    ensures var once := AfterReparse(files, exports, channels);
      && AfterReparse(once, exports, channels) == once
      && AppendCount(once, WorkOf(exports, channels)) == 0 && RefreshCount(once, WorkOf(exports, channels)) == 0
  {
    hide Written, AppendCount, RefreshCount, Collect;
    CollectIsDistinct(Flat(exports), channels);
    ReparseIsIdempotent(files, WorkOf(exports, channels));
  }

  /** Each record stands under its own id, once. */
  predicate Keyed(d: Dict<Record>) { DistinctKeys(d) && forall i :: 0 <= i < |d| ==> IdOf(d[i].1) == d[i].0 }

  lemma {:induction false} PutKeyed(d: Dict<Record>, rec: Record)
    requires forall i :: 0 <= i < |d| ==> IdOf(d[i].1) == d[i].0
    ensures var r := Put(d, IdOf(rec), rec); forall i :: 0 <= i < |r| ==> IdOf(r[i].1) == r[i].0
  {
    hide IdOf;
    if d != [] && d[0].0 != IdOf(rec) {
      PutKeyed(d[1..], rec);
      assert Put(d, IdOf(rec), rec) == [d[0]] + Put(d[1..], IdOf(rec), rec);
    }
  }

  lemma {:induction false} AddAllKeyed(byId: Dict<Record>, records: seq<Record>, channels: seq<string>)
    requires Keyed(byId)
    ensures Keyed(AddAll(byId, records, channels))
  {
    hide IdOf, Excluded, DistinctKeys;
    if records != [] {
      var init, rec := records[..|records| - 1], records[|records| - 1];
      AddAllKeyed(byId, init, channels);
      PutKeyed(AddAll(byId, init, channels), rec);
      PutKeepsDistinct(AddAll(byId, init, channels), IdOf(rec), rec);
    }
  }

  lemma {:induction false} CollectKeyed(groups: seq<Group>, channels: seq<string>, user: string)
    ensures Keyed(Or(Find(Collect(groups, channels), user), []))
  {
    hide AddAll;
    if groups != [] {
      var g, earlier := groups[|groups| - 1], groups[..|groups| - 1];
      CollectKeyed(earlier, channels, user);
      if g.0 == user { AddAllKeyed(Or(Find(Collect(earlier, channels), user), []), g.1, channels); }
    }
  }

  lemma {:induction false} FindAt<V>(d: Dict<V>, key: string) returns (i: nat)
    requires Find(d, key).Some?
    ensures i < |d| && d[i] == (key, Find(d, key).value)
  {
    if d[0].0 == key { i := 0; } else { i := FindAt(d[1..], key); i := i + 1; }
  }

  /** The values sorted out of a keyed dictionary are looked up by id as in the dictionary. */
  lemma SortedById(d: Dict<Record>, id: string)
    requires Keyed(d) && id != "" && Find(d, id).Some?
    ensures id in ById(SortedValues(d)) && ById(SortedValues(d))[id] == Find(d, id).value
  {
    hide SortedValues, IdOf, ById, Find;
    var records, rec := SortedValues(d), Find(d, id).value;
    var i := FindAt(d, id);
    assert Values(d)[i] == rec && rec in multiset(Values(d)) && rec in multiset(records);
    var k :| 0 <= k < |records| && records[k] == rec;
    var found := ById(records)[id];
    assert found in multiset(records) && found in multiset(Values(d));
    var j :| 0 <= j < |d| && Values(d)[j] == found;
    assert d[j].0 == id == d[i].0;
  }

  /**
    After a run, whatever was archived before, every message exported and not excluded is
    in its author's file and reads, in the parser's fields, as in the last export that has it.
  */
  lemma {:induction false} RunReadsTheLastExport(files: Files, exports: seq<seq<Group>>, channels: seq<string>,
                                                 user: string, id: string, f: string)
    returns (i: nat)
    requires id != "" && LastExported(Flat(exports), user, id, channels).Some? && f in PARSER_OWNED_FIELDS
    ensures var now := FileIn(AfterReparse(files, exports, channels), user);
      i < |now| && IdOf(now[i]) == id && Get(now[i], f) == Get(LastExported(Flat(exports), user, id, channels).value, f)
  {
    hide Written, Collect, LastExported, After, ById, SortedValues, IdOf, Get, Keyed, Find;
    var groups := Flat(exports);
    var latest := Collect(groups, channels);
    LatestExportWins(groups, channels, user, id);
    FindNothing(id);
    var byId := Find(latest, user).value;
    CollectKeyed(groups, channels, user);
    SortedById(byId, id);
    CollectIsDistinct(groups, channels);
    var k := FindAt(latest, user);
    var records := SortedValues(byId);
    WrittenFile(files, WorkOf(exports, channels), k);
    ParsedIds(records, id);
    assert records != [];
    i := ReparseBringsUpToDate(FileIn(files, user), records, id, f);
  }

  lemma FindNothing(id: string)
    ensures Find<Record>([], id).None? && IdsOf([]) == {}
  {
  }
}
