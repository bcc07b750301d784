/**
  When the counts by month or channel are right. A message is filed under the month
  and the channel name its chunk starts with; the total is never touched by that.
*/
module GroupCounts {
  import opened Transcript
  import opened Ingest
  import opened Counting
  import opened CountingTheorems

  /** As the archive is sorted: within a channel, by time. */
  predicate Ordered(messages: Chunk) {
    forall i, j :: 0 <= i < j < |messages| && messages[i].channelId == messages[j].channelId
      ==> messages[i].time <= messages[j].time
  }

  function Repeat(m: Message, n: nat): (r: Chunk)
    ensures |r| == n && forall i :: 0 <= i < n ==> r[i] == m
  {
    seq(n, i => m)
  }

  /** For each message asked for, the first message of its chunk. */
  function Heads(chunks: seq<Chunk>, q: Query): Chunk
    requires forall i :: 0 <= i < |chunks| ==> chunks[i] != []
  {
    if chunks == [] then [] else Repeat(chunks[0][0], |Direct(chunks[0], q)|) + Heads(chunks[1..], q)
  }

  lemma {:induction false} KeysAreOfTheHead(g: GroupBy, c: Chunk, found: Chunk, month: int -> string)
    requires c != [] && !g.ByAuthor?
    ensures Keys(g, Store(c), Said(found), month) == OwnKeys(g, Repeat(c[0], |found|), month)
  {
    hide Format, Text;
    if found != [] {
      assert Said(found)[1..] == Said(found[1..]) && Repeat(c[0], |found|)[1..] == Repeat(c[0], |found| - 1);
      KeysAreOfTheHead(g, c, found[1..], month);
    }
  }

  /** By month or channel, what is counted is the groups of the chunks' first messages. */
  lemma {:induction false} HeadsAreCounted(chunks: seq<Chunk>, q: Query, g: GroupBy, month: int -> string)
    requires GoodChunks(chunks) && Named(q) && !g.ByAuthor?
    ensures Counted(StoreAll(chunks), q, g, month) == OwnKeys(g, Heads(chunks, q), month)
  {
    hide GoodChunk, Store, HitsIn, Direct, Named, Said, Keys, OwnKeys, Repeat;
    if chunks == [] {
      NothingDirect(q, g, month);
    } else {
      var c, head := chunks[0], Repeat(chunks[0][0], |Direct(chunks[0], q)|);
      assert StoreAll(chunks)[1..] == StoreAll(chunks[1..]);
      HeadsAreCounted(chunks[1..], q, g, month);
      ChunkHitsExactly(c, q);
      KeysAreOfTheHead(g, c, Direct(c, q), month);
      OwnKeysConcat(g, head, Heads(chunks[1..], q), month);
    }
  }

  // -- a message and the head of its chunk --

  /** The head is of the same channel and not later. */
  predicate Leads(head: Message, m: Message) { head.channelId == m.channelId && head.time <= m.time }

  lemma {:induction false} PieceIsOrdered(pieces: seq<Chunk>, messages: Chunk, i: nat)
    requires Flat(pieces) == messages && Ordered(messages) && i < |pieces|
    ensures Ordered(pieces[i])
  {
    var head, rest := pieces[0], Flat(pieces[1..]);
    assert messages == head + rest;
    assert forall k :: 0 <= k < |head| ==> messages[k] == head[k];
    assert forall k :: 0 <= k < |rest| ==> messages[|head| + k] == rest[k];
    if i > 0 { PieceIsOrdered(pieces[1..], rest, i - 1); }
  }

  lemma HeadLeads(c: Chunk, gap: int, m: Message)
    requires Ordered(c) && Conversation(c, gap) && m in c
    ensures Leads(c[0], m)
  {
    hide Conversation;
    var k :| 0 <= k < |c| && c[k] == m;
    OneChannel(c, gap, k);
  }

  /** Each head leads its message, and both are in the archive. */
  lemma {:induction false} HeadsLead(chunks: seq<Chunk>, q: Query, gap: int)
    requires forall i :: 0 <= i < |chunks| ==> chunks[i] != [] && Ordered(chunks[i]) && Conversation(chunks[i], gap)
    ensures var heads, found, all := Heads(chunks, q), Direct(Flat(chunks), q), Flat(chunks);
      && |heads| == |found|
      && forall i :: 0 <= i < |found| ==> Leads(heads[i], found[i]) && heads[i] in all && found[i] in all
  {
    hide Ordered, Conversation, Direct;
    if chunks == [] {
      NothingDirect(q, ByAuthor, i => "");
    } else {
      var c, mine := chunks[0], Direct(chunks[0], q);
      HeadsLead(chunks[1..], q, gap);
      DirectConcat(c, Flat(chunks[1..]), q);
      forall i | 0 <= i < |mine| ensures Leads(c[0], mine[i]) && mine[i] in c {
        assert mine[i] in mine;
        DirectIsSubset(c, q, mine[i]);
        HeadLeads(c, gap, mine[i]);
      }
    }
  }

  // -- counts cannot cancel when labels only move on --

  /** Wherever the label changed, it is the latest of those that did. */
  lemma {:induction false} LatestMoved(xs: seq<string>, ys: seq<string>, t: seq<int>) returns (k: nat)
    requires |xs| == |ys| == |t| && xs != ys
    ensures k < |xs| && xs[k] != ys[k] && forall j :: 0 <= j < |xs| && xs[j] != ys[j] ==> t[j] <= t[k]
  {
    if xs[1..] == ys[1..] {
      k := 0;
      assert forall j :: 0 < j < |xs| ==> xs[j] == xs[1..][j - 1] && ys[j] == ys[1..][j - 1];
    } else {
      var r := LatestMoved(xs[1..], ys[1..], t[1..]);
      assert forall j :: 0 < j < |xs| && xs[j] != ys[j] ==> xs[1..][j - 1] != ys[1..][j - 1] && t[j] <= t[1..][r];
      k := if xs[0] != ys[0] && t[0] > t[r + 1] then 0 else r + 1;
    }
  }

  lemma {:induction false} FewerThen(xs: seq<string>, ys: seq<string>, x: string)
    requires |xs| == |ys| && forall j :: 0 <= j < |xs| && xs[j] == x ==> ys[j] == x
    ensures multiset(xs)[x] <= multiset(ys)[x]
    ensures (exists j :: 0 <= j < |xs| && ys[j] == x != xs[j]) ==> multiset(xs)[x] < multiset(ys)[x]
  {
    if xs != [] {
      FewerThen(xs[1..], ys[1..], x);
      assert xs == [xs[0]] + xs[1..] && ys == [ys[0]] + ys[1..];
      if j :| 0 < j < |xs| && ys[j] == x != xs[j] { assert ys[1..][j - 1] == x != xs[1..][j - 1]; }
    }
  }

  /** If no later item bears a label that an earlier one had to give up, equal counts mean equal labels. */
  lemma OnlyMovedOn(xs: seq<string>, ys: seq<string>, t: seq<int>)
    requires |xs| == |ys| == |t|
    requires forall i, k :: 0 <= i < |xs| && 0 <= k < |xs| && xs[i] == ys[k] && xs[i] != ys[i] ==> t[k] < t[i]
    ensures multiset(xs) == multiset(ys) <==> xs == ys
  {
    if xs != ys {
      var k := LatestMoved(xs, ys, t);
      FewerThen(xs, ys, ys[k]);
    }
  }

  /** Once a channel's messages have left a group, no later message of the archive belongs to it. */
  ghost predicate MovesOn(g: GroupBy, messages: Chunk, month: int -> string) {
    forall h, m, n ::
      (h in messages && m in messages && n in messages && Leads(h, m)
       && OwnKey(g, h, month) == OwnKey(g, n, month) != OwnKey(g, m, month)) ==> n.time < m.time
  }

  function Times(messages: Chunk): (r: seq<int>)
    ensures |r| == |messages| && forall i :: 0 <= i < |r| ==> r[i] == messages[i].time
  {
    seq(|messages|, i requires 0 <= i < |messages| => messages[i].time)
  }

  lemma {:induction false} OwnKeyAt(g: GroupBy, messages: Chunk, month: int -> string, i: nat)
    requires i < |messages|
    ensures OwnKeys(g, messages, month)[i] == OwnKey(g, messages[i], month)
  {
    hide OwnKey;
    if i > 0 { OwnKeyAt(g, messages[1..], month, i - 1); }
  }

  lemma HeadsCountAlike(heads: Chunk, found: Chunk, messages: Chunk, g: GroupBy, month: int -> string)
    requires |heads| == |found| && MovesOn(g, messages, month)
    requires forall i :: 0 <= i < |found| ==> Leads(heads[i], found[i]) && heads[i] in messages && found[i] in messages
    ensures var xs, ys := OwnKeys(g, heads, month), OwnKeys(g, found, month);
      multiset(xs) == multiset(ys) <==> xs == ys
  {
    hide OwnKey, OwnKeys, Leads;
    var xs, ys, t := OwnKeys(g, heads, month), OwnKeys(g, found, month), Times(found);
    forall i, k | 0 <= i < |xs| && 0 <= k < |xs| && xs[i] == ys[k] && xs[i] != ys[i] ensures t[k] < t[i] {
      OwnKeyAt(g, heads, month, i);
      OwnKeyAt(g, found, month, i);
      OwnKeyAt(g, found, month, k);
    }
    OnlyMovedOn(xs, ys, t);
  }

  // -- the theorems --

  /**
    In a sorted archive whose channels only move on, the counts are right group by
    group exactly when every message asked for is filed in its own group.
  */
  lemma GroupCountsAreRightIff(chunks: seq<Chunk>, messages: Chunk, gap: int, cap: int, q: Query, g: GroupBy,
                               month: int -> string)
    requires Division(chunks, messages) && Chunked(chunks, gap, cap) && GoodArchive(messages) && Named(q)
    requires |Passing(StoreAll(chunks), q)| <= MAX_SCAN
    requires g.ByAuthor? || (Ordered(messages) && MovesOn(g, messages, month))
    ensures var counted := Counted(Scan(StoreAll(chunks), q), q, g, month);
      var direct := OwnKeys(g, Direct(messages, q), month);
      multiset(counted) == multiset(direct) <==> AllFiledRight(g, chunks, q, month)
  {
    hide GoodArchive, GoodChunk, Chunked, Direct, Named, Counted, AllFiledRight, Passing, StoreAll, OwnKeys, Ordered,
         MovesOn;
    IndexCountsExactly(chunks, messages, gap, cap, q, g, month);
    if !g.ByAuthor? {
      forall i | 0 <= i < |chunks| ensures GoodChunk(chunks[i]) && Ordered(chunks[i]) {
        PieceIsGood(chunks, messages, i);
        PieceIsOrdered(chunks, messages, i);
      }
      FilterLosesNothing(chunks, q, g, month);
      HeadsAreCounted(chunks, q, g, month);
      ChunkedAreConversations(chunks, gap, cap);
      HeadsLead(chunks, q, gap);
      HeadsCountAlike(Heads(chunks, q), Direct(messages, q), messages, g, month);
    }
  }

  lemma ChunkedAreConversations(chunks: seq<Chunk>, gap: int, cap: int)
    requires Chunked(chunks, gap, cap)
    ensures forall i :: 0 <= i < |chunks| ==> Conversation(chunks[i], gap)
  {
    hide Conversation, Fits, Forced;
  }

  /** A month is an unbroken stretch of time. */
  ghost predicate Calendar(month: int -> string) {
    forall a, b, c :: a <= b <= c && MonthOf(a, month) == MonthOf(c, month) ==> MonthOf(b, month) == MonthOf(a, month)
  }

  lemma MonthsMoveOn(messages: Chunk, month: int -> string)
    requires Calendar(month)
    ensures MovesOn(ByMonth, messages, month)
  {
    hide MonthOf;
  }

  /** No message asked for is in a chunk begun in another month. */
  ghost predicate NoMonthCrossed(chunks: seq<Chunk>, q: Query, month: int -> string)
    requires forall i :: 0 <= i < |chunks| ==> chunks[i] != []
  {
    forall i, m :: 0 <= i < |chunks| && m in Direct(chunks[i], q)
      ==> MonthOf(m.time, month) == MonthOf(chunks[i][0].time, month)
  }

  /**
    By month the counts of a sorted archive are right exactly when no message asked for is
    in a chunk begun in another month.
  */
  lemma MonthCountsAreRightIff(chunks: seq<Chunk>, messages: Chunk, gap: int, cap: int, q: Query, month: int -> string)
    requires Division(chunks, messages) && Chunked(chunks, gap, cap) && GoodArchive(messages) && Named(q)
    requires |Passing(StoreAll(chunks), q)| <= MAX_SCAN
    requires Ordered(messages) && Calendar(month)
    ensures var counted := Counted(Scan(StoreAll(chunks), q), q, ByMonth, month);
      var direct := OwnKeys(ByMonth, Direct(messages, q), month);
      multiset(counted) == multiset(direct) <==> NoMonthCrossed(chunks, q, month)
  {
    hide GoodArchive, Chunked, Direct, Named, Counted, Scan, Passing, StoreAll, OwnKeys, Ordered, MovesOn, MonthOf,
         Calendar, Format;
    MonthsMoveOn(messages, month);
    GroupCountsAreRightIff(chunks, messages, gap, cap, q, ByMonth, month);
    forall i, m | 0 <= i < |chunks| && m in Direct(chunks[i], q)
      ensures FiledRight(ByMonth, chunks[i], m, month)
         <==> MonthOf(m.time, month) == MonthOf(chunks[i][0].time, month)
    {
      FiledByMonth(chunks[i], m, month);
    }
  }

  lemma FiledByMonth(c: Chunk, m: Message, month: int -> string)
    requires c != []
    ensures FiledRight(ByMonth, c, m, month) <==> MonthOf(m.time, month) == MonthOf(c[0].time, month)
  {
    hide Format;
  }

  // -- from the archive to the counts --

  lemma SameHistogram(counts: map<string, nat>, xs: seq<string>, ys: seq<string>)
    requires Histogram(counts, xs)
    ensures Histogram(counts, ys) <==> multiset(xs) == multiset(ys)
  {
    if Histogram(counts, ys) {
      forall k ensures multiset(xs)[k] == multiset(ys)[k] {
        if k !in counts { assert k !in xs && k !in ys; }
      }
      assert multiset(xs) == multiset(ys);
    } else if multiset(xs) == multiset(ys) {
      assert forall k :: (k in xs <==> k in multiset(xs)) && (k in ys <==> k in multiset(ys));
    }
  }

  /**
    What the counts are worth: a total that misses only what the scan limit left out, and
    groups exact when nothing is misfiled.
  */
  ghost predicate CountsWell(chunks: seq<Chunk>, messages: Chunk, q: Query, g: GroupBy, month: int -> string,
                             counts: map<string, nat>, total: nat)
    requires forall i :: 0 <= i < |chunks| ==> chunks[i] != []
  {
    && total <= |Direct(messages, q)|
    && (total == |Direct(messages, q)| <==> NoneHolds(LeftOut(chunks, q), q))
    && (LeftOut(chunks, q) == [] && (g.ByAuthor? || (Ordered(messages) && MovesOn(g, messages, month)))
        ==> (Histogram(counts, OwnKeys(g, Direct(messages, q), month)) <==> AllFiledRight(g, chunks, q, month)))
    && (LeftOut(chunks, q) == [] && (g.ByAuthor? || (g.ByChannel? && NeverRenamed(messages)))
        ==> Histogram(counts, OwnKeys(g, Direct(messages, q), month)))
  }

  lemma IndexCountsWell(chunks: seq<Chunk>, messages: Chunk, gap: int, cap: int, q: Query, g: GroupBy,
                        month: int -> string, counts: map<string, nat>, total: nat)
    requires Division(chunks, messages) && Chunked(chunks, gap, cap) && GoodArchive(messages) && Named(q)
    requires Histogram(counts, Counted(Scan(StoreAll(chunks), q), q, g, month))
    requires total == |Counted(Scan(StoreAll(chunks), q), q, g, month)|
    ensures CountsWell(chunks, messages, q, g, month, counts, total)
  {
    hide GoodArchive, GoodChunk, Chunked, Direct, Named, Counted, AllFiledRight, Passing, StoreAll, OwnKeys, Ordered,
         MovesOn,
         NeverRenamed, Through, Scan, Histogram;
    ScanLimitUndercounts(chunks, messages, q, g, month);
    if LeftOut(chunks, q) == [] {
      forall i | 0 <= i < |chunks| ensures GoodChunk(chunks[i]) { PieceIsGood(chunks, messages, i); }
      PassingIsThrough(chunks, q);
      StoreSuffix(Through(chunks, q), 0);
      IndexCountsExactly(chunks, messages, gap, cap, q, g, month);
      var counted, direct := Counted(Scan(StoreAll(chunks), q), q, g, month), OwnKeys(g, Direct(messages, q), month);
      SameHistogram(counts, counted, direct);
      if g.ByAuthor? || (Ordered(messages) && MovesOn(g, messages, month)) {
        GroupCountsAreRightIff(chunks, messages, gap, cap, q, g, month);
      }
    }
  }

  /** Chunking an archive, filing the chunks and counting through the index, against reading the archive. */
  method CountArchive(messages: Chunk, gap: int, cap: int, q: Query, g: GroupBy, month: int -> string)
    returns (chunks: seq<Chunk>, counts: map<string, nat>, total: nat)
    ensures Division(chunks, messages) && Chunked(chunks, gap, cap) && Sum(counts) == total
    ensures GoodArchive(messages) && Named(q) ==> CountsWell(chunks, messages, q, g, month, counts, total)
  {
    hide GoodArchive, Chunked, Counted, StoreAll, Named, CountsWell, Histogram, Scan, Sum;
    chunks := ChunkByConversation(messages, gap, cap);
    counts, total := AggregateStats(StoreAll(chunks), q, g, month);
    if GoodArchive(messages) && Named(q) { IndexCountsWell(chunks, messages, gap, cap, q, g, month, counts, total); }
  }

  // -- archives that are counted wrongly --

  /** A short message by the one speaker of these archives. */
  function Short(channelId: string, channelName: string, time: int): Message {
    Message("1", "u", channelId, channelName, time, "s", "x", "")
  }

  predicate IsShort(m: Message) {
    && |m.channelName| == 1 && m.channelName[0] in "abc"
    && m == Short(m.channelId, m.channelName, m.time)
  }

  predicate AllShort(messages: Chunk) { forall m :: m in messages ==> IsShort(m) }

  const SPEAKER := Query("", "u", false)

  lemma ShortIsGood(m: Message, users: set<string>)
    requires IsShort(m)
    ensures GoodAmong(m, users)
  {
    IndexIs("x", '\n', 1);
    assert SplitNl("x") == ["x"];
    var h := Header([m]);
    assert h == "[#" + m.channelName + " | s]" && |h| == 8;
    IndexIs(h, ':', |h|);
  }

  lemma ShortsAreGood(messages: Chunk)
    requires AllShort(messages)
    ensures GoodArchive(messages)
  {
    hide GoodAmong, IsShort;
    forall i | 0 <= i < |messages| ensures GoodAmong(messages[i], Speakers(messages)) {
      ShortIsGood(messages[i], Speakers(messages));
    }
  }

  lemma {:induction false} ShortsAreAsked(messages: Chunk)
    requires AllShort(messages)
    ensures Direct(messages, SPEAKER) == messages && Named(SPEAKER)
  {
    hide Fold;
    assert SPEAKER.Wanted() == "u";
    if messages != [] {
      assert IsShort(messages[0]);
      ShortsAreAsked(messages[1..]);
    }
  }

  lemma TwoShortsFit(a: Message, b: Message, cap: int)
    requires IsShort(a) && IsShort(b) && cap >= 4
    ensures Fits([a, b], cap)
  {
    hide Format;
    FormatLengths([a, b]);
    assert |Header([a])| == 8 && Line(a) == "u: x" && Line(b) == "u: x";
  }

  lemma {:induction false} PassingIsFewer(collection: seq<Stored>, q: Query)
    ensures |Passing(collection, q)| <= |collection|
  {
    hide Passes;
    if collection != [] { PassingIsFewer(collection[1..], q); }
  }

  /** What is counted of short messages by month or channel: each by the first of its chunk. */
  lemma ShortsAreCounted(chunks: seq<Chunk>, messages: Chunk, g: GroupBy, month: int -> string)
    requires Division(chunks, messages) && AllShort(messages) && |chunks| <= MAX_SCAN && !g.ByAuthor?
    ensures GoodArchive(messages) && Named(SPEAKER) && |Passing(StoreAll(chunks), SPEAKER)| <= MAX_SCAN
    ensures Counted(Scan(StoreAll(chunks), SPEAKER), SPEAKER, g, month) == OwnKeys(g, Heads(chunks, SPEAKER), month)
    ensures Direct(messages, SPEAKER) == messages
  {
    hide GoodArchive, GoodChunk, Direct, Named, Counted, Passing, StoreAll, OwnKeys, AllShort;
    ShortsAreGood(messages);
    ShortsAreAsked(messages);
    forall i | 0 <= i < |chunks| ensures GoodChunk(chunks[i]) { PieceIsGood(chunks, messages, i); }
    StoreSuffix(chunks, 0);
    PassingIsFewer(StoreAll(chunks), SPEAKER);
    FilterLosesNothing(chunks, SPEAKER, g, month);
    HeadsAreCounted(chunks, SPEAKER, g, month);
  }

  lemma OwnKeysOfTwo(g: GroupBy, a: Message, b: Message, month: int -> string)
    ensures OwnKeys(g, [a, b], month) == [OwnKey(g, a, month), OwnKey(g, b, month)]
  {
    hide OwnKey;
    assert [a, b][1..] == [b] && [b][1..] == [];
  }

  lemma HeadsOfPair(a: Message, b: Message)
    requires IsShort(a) && IsShort(b)
    ensures Heads([[a, b]], SPEAKER) == [a, a]
  {
    ShortsAreAsked([a, b]);
    assert [[a, b]][1..] == [] && Repeat(a, 2) == [a, a];
  }

  /** Two messages of one chunk that belong to different groups: both are counted in the first one's. */
  lemma PairMiscounts(a: Message, b: Message, gap: int, cap: int, g: GroupBy, month: int -> string)
    requires IsShort(a) && IsShort(b) && Continues(a, b, gap) && a.time <= b.time && cap >= 4
    requires !g.ByAuthor? && OwnKey(g, a, month) != OwnKey(g, b, month)
    ensures var chunks, messages, ka, kb := [[a, b]], [a, b], OwnKey(g, a, month), OwnKey(g, b, month);
      && Division(chunks, messages) && Chunked(chunks, gap, cap) && GoodArchive(messages) && Ordered(messages)
      && Counted(Scan(StoreAll(chunks), SPEAKER), SPEAKER, g, month) == [ka, ka]
      && OwnKeys(g, Direct(messages, SPEAKER), month) == [ka, kb]
      && multiset([ka, ka]) != multiset([ka, kb])
  {
    hide OwnKey, Tokens, GoodArchive, Counted, StoreAll, Direct, OwnKeys, Heads, IsShort;
    TwoShortsFit(a, b, cap);
    FlatAppend([], [a, b]);
    assert [] + [[a, b]] == [[a, b]];
    ShortsAreCounted([[a, b]], [a, b], g, month);
    HeadsOfPair(a, b);
    OwnKeysOfTwo(g, a, a, month);
    OwnKeysOfTwo(g, a, b, month);
    var ka, kb := OwnKey(g, a, month), OwnKey(g, b, month);
    assert multiset([ka, ka])[ka] == 2 && multiset([ka, kb])[ka] == 1;
  }

  /** Around any turn of a month within the gap, two messages are counted for the month before. */
  lemma MonthMiscounts(a: int, b: int, gap: int, cap: int, month: int -> string)
    requires a <= b <= a + gap && cap >= 4 && MonthOf(a, month) != MonthOf(b, month)
    ensures var messages := [Short("1", "c", a), Short("1", "c", b)];
      && Division([messages], messages) && Chunked([messages], gap, cap) && GoodArchive(messages) && Ordered(messages)
      && Counted(Scan(StoreAll([messages]), SPEAKER), SPEAKER, ByMonth, month) == [MonthOf(a, month), MonthOf(a, month)]
      && OwnKeys(ByMonth, Direct(messages, SPEAKER), month) == [MonthOf(a, month), MonthOf(b, month)]
  {
    hide MonthOf, Chunked, GoodArchive, Counted, StoreAll, Scan, Direct, OwnKeys;
    PairMiscounts(Short("1", "c", a), Short("1", "c", b), gap, cap, ByMonth, month);
  }

  /** Around a rename, two messages are counted under the old name. */
  lemma RenameMiscounts(a: int, b: int, gap: int, cap: int, month: int -> string)
    requires a <= b <= a + gap && cap >= 4
    ensures var messages := [Short("1", "a", a), Short("1", "b", b)];
      && Division([messages], messages) && Chunked([messages], gap, cap) && GoodArchive(messages) && Ordered(messages)
      && Counted(Scan(StoreAll([messages]), SPEAKER), SPEAKER, ByChannel, month) == ["#a", "#a"]
      && OwnKeys(ByChannel, Direct(messages, SPEAKER), month) == ["#a", "#b"]
  {
    hide Chunked, GoodArchive, Counted, StoreAll, Scan, Direct, OwnKeys;
    var x, y := Short("1", "a", a), Short("1", "b", b);
    assert OwnKey(ByChannel, x, month) == "#a" && OwnKey(ByChannel, y, month) == "#b" && "#a"[1] != "#b"[1];
    PairMiscounts(x, y, gap, cap, ByChannel, month);
  }

  /** Two channels that swap names: two messages are filed wrongly, and the counts come out right all the same. */
  lemma RenamesCancel(gap: nat, cap: int, month: int -> string)
    requires cap >= 4
    ensures var x, y := [Short("1", "a", 0), Short("1", "b", 0)], [Short("2", "b", 0), Short("2", "a", 0)];
      && Division([x, y], x + y) && Chunked([x, y], gap, cap) && GoodArchive(x + y) && Ordered(x + y)
      && !AllFiledRight(ByChannel, [x, y], SPEAKER, month)
      && multiset(Counted(Scan(StoreAll([x, y]), SPEAKER), SPEAKER, ByChannel, month))
           == multiset(OwnKeys(ByChannel, Direct(x + y, SPEAKER), month))
  {
    hide Tokens, GoodArchive, Counted, StoreAll, Direct, OwnKeys, Format, AllFiledRight, Heads, Fits;
    var x, y := [Short("1", "a", 0), Short("1", "b", 0)], [Short("2", "b", 0), Short("2", "a", 0)];
    TwoShortsFit(x[0], x[1], cap);
    TwoShortsFit(y[0], y[1], cap);
    FlatTwo(x, y);
    ShortsAreCounted([x, y], x + y, ByChannel, month);
    ShortsAreAsked(x);
    SwapsAreKeyed(x, y, month);
    NotFiledRight([x, y], x[1], month);
  }

  /** Two pairs whose names are swapped: by their heads or by themselves, the same labels twice each. */
  lemma SwapsAreKeyed(x: Chunk, y: Chunk, month: int -> string)
    requires |x| == |y| == 2 && AllShort(x) && AllShort(y)
    requires x[0].channelName == y[1].channelName && x[1].channelName == y[0].channelName
    ensures multiset(OwnKeys(ByChannel, Heads([x, y], SPEAKER), month)) == multiset(OwnKeys(ByChannel, x + y, month))
  {
    hide OwnKeys, OwnKey, Heads, IsShort;
    HeadsOfPairs(x, y);
    FourKeys(x[0], x[0], y[0], y[0], month);
    FourKeys(x[0], x[1], y[0], y[1], month);
    assert x == [x[0], x[1]] && y == [y[0], y[1]];
    SameName(x[0], y[1], month);
    SameName(x[1], y[0], month);
    SwappedTwice(OwnKey(ByChannel, x[0], month), OwnKey(ByChannel, y[0], month));
  }

  lemma HeadsOfPairs(x: Chunk, y: Chunk)
    requires |x| == |y| == 2 && AllShort(x) && AllShort(y)
    ensures Heads([x, y], SPEAKER) == [x[0], x[0]] + [y[0], y[0]]
  {
    hide Direct, Heads, IsShort;
    ShortsAreAsked(x);
    ShortsAreAsked(y);
    HeadsOfTwo(x, y, SPEAKER);
    assert Repeat(x[0], 2) == [x[0], x[0]] && Repeat(y[0], 2) == [y[0], y[0]];
  }

  lemma SameName(a: Message, b: Message, month: int -> string)
    requires a.channelName == b.channelName
    ensures OwnKey(ByChannel, a, month) == OwnKey(ByChannel, b, month)
  {
  }

  lemma SwappedTwice(a: string, b: string)
    ensures multiset([a, a, b, b]) == multiset([a, b, b, a])
  {
  }

  lemma FourKeys(a: Message, b: Message, c: Message, d: Message, month: int -> string)
    ensures OwnKeys(ByChannel, [a, b] + [c, d], month)
         == [OwnKey(ByChannel, a, month), OwnKey(ByChannel, b, month),
             OwnKey(ByChannel, c, month), OwnKey(ByChannel, d, month)]
  {
    hide OwnKeys, OwnKey;
    OwnKeysConcat(ByChannel, [a, b], [c, d], month);
    OwnKeysOfTwo(ByChannel, a, b, month);
    OwnKeysOfTwo(ByChannel, c, d, month);
  }

  lemma HeadsOfTwo(x: Chunk, y: Chunk, q: Query)
    requires x != [] && y != []
    ensures Heads([x, y], q) == Repeat(x[0], |Direct(x, q)|) + Repeat(y[0], |Direct(y, q)|)
  {
    hide Direct, Repeat;
    assert [x, y][1..] == [y] && [y][1..] == [];
    assert Heads([y], q) == Repeat(y[0], |Direct(y, q)|) + [];
  }

  lemma NotFiledRight(chunks: seq<Chunk>, m: Message, month: int -> string)
    requires forall i :: 0 <= i < |chunks| ==> chunks[i] != []
    requires chunks != [] && m in Direct(chunks[0], SPEAKER) && m.channelName == "b" && chunks[0][0].channelName == "a"
    ensures !AllFiledRight(ByChannel, chunks, SPEAKER, month)
  {
    hide Format, Direct;
    assert ("#" + m.channelName)[1] == 'b' && ("#" + chunks[0][0].channelName)[1] == 'a';
    assert !FiledRight(ByChannel, chunks[0], m, month);
  }
}
