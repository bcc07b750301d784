/**
  Counting and finding messages through the index: chunks are prefiltered by a
  regex over their printed text, parsed back, and matched message by message.
  Case folding and word characters are ASCII.
*/
module Counting {
  import opened Transcript

  /** The most chunks one query pulls from the collection. */
  const MAX_SCAN := 5000

  /** One chunk in the collection: its printed text and the metadata the search reads. */
  datatype Stored = Stored(doc: string, authors: string, channelName: string, start: int)

  /** `int()` of a time in microseconds. */
  function Seconds(time: int): int {
    if time >= 0 then time / 1_000_000 else -(-time / 1_000_000)
  }

  function Store(c: Chunk): Stored
    requires c != []
  {
    Stored(Format(c), JoinCommas(Authors(c)), c[0].channelName, Seconds(c[0].time))
  }

  function StoreAll(chunks: seq<Chunk>): seq<Stored>
    requires forall i :: 0 <= i < |chunks| ==> chunks[i] != []
  {
    if chunks == [] then [] else [Store(chunks[0])] + StoreAll(chunks[1..])
  }

  // -- the two regexes --

  predicate IsWord(c: char) { 'a' <= c <= 'z' || 'A' <= c <= 'Z' || '0' <= c <= '9' || c == '_' }

  /** `\b` at position i. */
  predicate Boundary(s: string, i: nat)
    requires i <= |s|
  {
    (i > 0 && IsWord(s[i - 1])) != (i < |s| && IsWord(s[i]))
  }

  predicate HitAt(s: string, term: string, whole: bool, i: nat) {
    i + |term| <= |s| && Fold(s[i..i + |term|]) == Fold(term) && (whole ==> Boundary(s, i))
  }

  /** `_term_regex` finds the term in the text. */
  predicate Contains(s: string, term: string, whole: bool) {
    exists i :: 0 <= i <= |s| && HitAt(s, term, whole, i)
  }

  predicate SpokenAt(doc: string, name: string, i: nat) {
    && i + |name| < |doc| && (i == 0 || doc[i - 1] == '\n')
    && Fold(doc[i..i + |name|]) == Fold(name) && doc[i + |name|] == ':'
  }

  /** `_author_regex` finds a line starting "name:". */
  predicate SpokeIn(doc: string, name: string) {
    exists i :: 0 <= i <= |doc| && SpokenAt(doc, name, i)
  }

  function LStripAt(s: string): string { if s != "" && s[0] == '@' then LStripAt(s[1..]) else s }

  /** What was asked for; an empty term or author is no condition. */
  datatype Query = Query(term: string, author: string, whole: bool) {
    function Wanted(): string { LStripAt(author) }
  }

  predicate Passes(doc: string, q: Query) {
    (q.term != "" ==> Contains(doc, q.term, q.whole)) && (q.author != "" ==> SpokeIn(doc, q.Wanted()))
  }

  /** The chunks the collection's filter lets through. */
  function Passing(collection: seq<Stored>, q: Query): seq<Stored> {
    if collection == [] then []
    else (if Passes(collection[0].doc, q) then [collection[0]] else []) + Passing(collection[1..], q)
  }

  function Scan(collection: seq<Stored>, q: Query): seq<Stored> {
    var all := Passing(collection, q);
    if |all| <= MAX_SCAN then all else all[..MAX_SCAN]
  }

  // -- matching message by message --

  predicate Says(speaker: string, text: string, q: Query) {
    && (q.Wanted() == "" || Fold(speaker) == Fold(q.Wanted()))
    && (q.term == "" || Contains(text, q.term, q.whole))
  }

  function Hits(said: seq<(string, string)>, q: Query): seq<(string, string)> {
    if said == [] then []
    else (if Says(said[0].0, said[0].1, q) then [said[0]] else []) + Hits(said[1..], q)
  }

  function HitsIn(s: Stored, q: Query): seq<(string, string)> { Hits(Parse(s.doc, s.authors), q) }

  datatype GroupBy = ByAuthor | ByChannel | ByMonth

  function Key(g: GroupBy, s: Stored, speaker: string, month: int -> string): string {
    match g
    case ByAuthor => speaker
    case ByChannel => "#" + s.channelName
    case ByMonth => if s.start != 0 then month(s.start) else "unknown"
  }

  function Keys(g: GroupBy, s: Stored, hits: seq<(string, string)>, month: int -> string): seq<string> {
    if hits == [] then [] else [Key(g, s, hits[0].0, month)] + Keys(g, s, hits[1..], month)
  }

  /** The group of every counted message, in the order they are counted. */
  function Counted(results: seq<Stored>, q: Query, g: GroupBy, month: int -> string): seq<string> {
    if results == [] then [] else Keys(g, results[0], HitsIn(results[0], q), month) + Counted(results[1..], q, g, month)
  }

  // -- the counting loop --

  /** The counts are of exactly these keys. */
  ghost predicate Histogram(counts: map<string, nat>, keys: seq<string>) {
    && (forall k :: k in counts <==> k in keys)
    && (forall k :: k in counts ==> counts[k] == multiset(keys)[k])
  }

  ghost function Sum(counts: map<string, nat>): nat {
    if counts == map[] then 0 else var k :| k in counts; counts[k] + Sum(counts - {k})
  }

  lemma {:induction false} SumWithout(counts: map<string, nat>, k: string)
    requires k in counts
    ensures Sum(counts) == counts[k] + Sum(counts - {k})
    decreases |counts|
  {
    var j :| j in counts && Sum(counts) == counts[j] + Sum(counts - {j});
    if j != k {
      SumWithout(counts - {j}, k);
      SumWithout(counts - {k}, j);
      assert counts - {j} - {k} == counts - {k} - {j};
    }
  }

  function Bump(counts: map<string, nat>, k: string): map<string, nat> {
    counts[k := (if k in counts then counts[k] else 0) + 1]
  }

  lemma BumpAddsOne(counts: map<string, nat>, keys: seq<string>, k: string)
    requires Histogram(counts, keys)
    ensures Histogram(Bump(counts, k), keys + [k]) && Sum(Bump(counts, k)) == Sum(counts) + 1
  {
    var after := Bump(counts, k);
    SumWithout(after, k);
    if k in counts {
      SumWithout(counts, k);
      assert after - {k} == counts - {k};
    } else {
      assert after - {k} == counts;
    }
  }

  lemma {:induction false} HitsAppend(said: seq<(string, string)>, x: (string, string), q: Query)
    ensures Hits(said + [x], q) == Hits(said, q) + (if Says(x.0, x.1, q) then [x] else [])
  {
    hide Says;
    if said == [] {
      assert said + [x] == [x] && [x][1..] == [];
    } else {
      assert (said + [x])[1..] == said[1..] + [x];
      HitsAppend(said[1..], x, q);
    }
  }

  lemma {:induction false} KeysAppend(g: GroupBy, s: Stored, hits: seq<(string, string)>, x: (string, string),
                                      month: int -> string)
    ensures Keys(g, s, hits + [x], month) == Keys(g, s, hits, month) + [Key(g, s, x.0, month)]
  {
    if hits == [] {
      assert hits + [x] == [x] && [x][1..] == [];
    } else {
      assert (hits + [x])[1..] == hits[1..] + [x];
      KeysAppend(g, s, hits[1..], x, month);
    }
  }

  lemma {:induction false} CountedConcat(a: seq<Stored>, b: seq<Stored>, q: Query, g: GroupBy, month: int -> string)
    ensures Counted(a + b, q, g, month) == Counted(a, q, g, month) + Counted(b, q, g, month)
  {
    hide HitsIn;
    if a == [] {
      assert a + b == b;
    } else {
      assert (a + b)[1..] == a[1..] + b;
      CountedConcat(a[1..], b, q, g, month);
    }
  }

  /** The inner loop of `aggregate_stats`: one chunk's messages. */
  method CountChunk(s: Stored, q: Query, g: GroupBy, month: int -> string, counts: map<string, nat>, total: nat,
                    ghost keys: seq<string>)
    returns (counts': map<string, nat>, total': nat)
    requires Histogram(counts, keys) && total == |keys| == Sum(counts)
    ensures Histogram(counts', keys + Keys(g, s, HitsIn(s, q), month))
    ensures total' == |keys + Keys(g, s, HitsIn(s, q), month)| == Sum(counts')
  {
    hide Says, HitsIn, Parse, Keys, Hits, Histogram, Sum, Bump, Key;
    counts', total' := counts, total;
    var said := ParseChunkMessages(s.doc, s.authors);
    ghost var now := keys;
    NoHits(q);
    for j := 0 to |said|
      invariant now == keys + Keys(g, s, Hits(said[..j], q), month)
      invariant Histogram(counts', now) && total' == |now| == Sum(counts')
    {
      var x := said[j];
      assert said[..j + 1] == said[..j] + [x];
      HitsAppend(said[..j], x, q);
      if Says(x.0, x.1, q) {
        var key := Key(g, s, x.0, month);
        KeysAppend(g, s, Hits(said[..j], q), x, month);
        BumpAddsOne(counts', now, key);
        counts', total' := Bump(counts', key), total' + 1;
        now := now + [key];
      } else {
        assert Hits(said[..j], q) + [] == Hits(said[..j], q);
      }
    }
    assert said[..|said|] == said;
    HitsOfParse(s, said, q);
  }

  /** The counting part of `aggregate_stats`. */
  method AggregateStats(collection: seq<Stored>, q: Query, g: GroupBy, month: int -> string)
    returns (counts: map<string, nat>, total: nat)
    ensures Histogram(counts, Counted(Scan(collection, q), q, g, month))
    ensures total == |Counted(Scan(collection, q), q, g, month)| == Sum(counts)
  {
    hide Scan, HitsIn, Keys, Histogram, Sum, Counted;
    var results := Scan(collection, q);
    counts, total := map[], 0;
    NothingCounted(q, g, month);
    for i := 0 to |results|
      invariant Histogram(counts, Counted(results[..i], q, g, month))
      invariant total == |Counted(results[..i], q, g, month)| == Sum(counts)
    {
      var s := results[i];
      assert results[..i + 1] == results[..i] + [s];
      CountedConcat(results[..i], [s], q, g, month);
      CountedOne(s, q, g, month);
      counts, total := CountChunk(s, q, g, month, counts, total, Counted(results[..i], q, g, month));
    }
    assert results[..|results|] == results;
  }

  lemma NothingCounted(q: Query, g: GroupBy, month: int -> string)
    ensures Histogram(map[], []) && Sum(map[]) == 0 && Counted([], q, g, month) == []
  {
  }

  lemma CountedOne(s: Stored, q: Query, g: GroupBy, month: int -> string)
    ensures Counted([s], q, g, month) == Keys(g, s, HitsIn(s, q), month)
  {
    hide Keys, HitsIn;
    assert [s][1..] == [];
  }

  lemma NoHits(q: Query)
    ensures Hits([], q) == []
    ensures forall g, s, month :: Keys(g, s, [], month) == []
  {
  }

  lemma HitsOfParse(s: Stored, said: seq<(string, string)>, q: Query)
    requires said == Parse(s.doc, s.authors)
    ensures HitsIn(s, q) == Hits(said, q)
  {
  }

  // -- the search loop --

  /** A chunk that is returned, with the messages shown above it. */
  datatype Found = Found(stored: Stored, hits: seq<(string, string)>)

  /** What becomes of one chunk that passed the filter. */
  function Kept(s: Stored, q: Query): seq<Found> {
    if q.term == "" && q.Wanted() == "" then [Found(s, [])]
    else if HitsIn(s, q) == [] then [] else [Found(s, HitsIn(s, q))]
  }

  function KeptAll(results: seq<Stored>, q: Query): seq<Found> {
    if results == [] then [] else Kept(results[0], q) + KeptAll(results[1..], q)
  }

  lemma {:induction false} KeptConcat(a: seq<Stored>, b: seq<Stored>, q: Query)
    ensures KeptAll(a + b, q) == KeptAll(a, q) + KeptAll(b, q)
  {
    hide Kept;
    if a == [] {
      assert a + b == b;
    } else {
      assert (a + b)[1..] == a[1..] + b;
      KeptConcat(a[1..], b, q);
    }
  }

  /** The messages of one chunk that match. */
  method MatchingMessages(s: Stored, q: Query) returns (hits: seq<(string, string)>)
    ensures hits == HitsIn(s, q)
  {
    hide Parse, Says, Hits;
    var said := ParseChunkMessages(s.doc, s.authors);
    hits := [];
    NoHits(q);
    for j := 0 to |said|
      invariant hits == Hits(said[..j], q)
    {
      var x := said[j];
      assert said[..j + 1] == said[..j] + [x];
      HitsAppend(said[..j], x, q);
      if Says(x.0, x.1, q) { hits := hits + [x]; }
    }
    assert said[..|said|] == said;
  }

  /** `search_literal` up to ordering: the chunks it returns and the messages it leads each with. */
  method SearchLiteral(collection: seq<Stored>, q: Query) returns (kept: seq<Found>)
    ensures kept == if q.term == "" && q.author == "" then [] else KeptAll(Scan(collection, q), q)
  {
    hide Scan, HitsIn;
    kept := [];
    if q.term == "" && q.author == "" { return; }
    var results := Scan(collection, q);
    for i := 0 to |results|
      invariant kept == KeptAll(results[..i], q)
    {
      var s := results[i];
      assert results[..i + 1] == results[..i] + [s] && [s][1..] == [];
      KeptConcat(results[..i], [s], q);
      assert KeptAll([s], q) == Kept(s, q) + KeptAll([], q) == Kept(s, q);
      var hits := [];
      if q.term != "" || q.Wanted() != "" {
        hits := MatchingMessages(s, q);
        if hits == [] {
          assert kept + [] == kept;
          continue;
        }
      }
      kept := kept + [Found(s, hits)];
    }
    assert results[..|results|] == results;
  }
}
