/** Searching and counting through the index agree with reading the archive directly. */
module CountingTheorems {
  import opened Excerpts
  import opened Transcript
  import opened Ingest
  import opened Counting

  // -- reading the archive directly --

  /** The message is one the query asks for. */
  predicate Asked(m: Message, q: Query) {
    && (q.author == "" || Fold(m.user) == Fold(q.Wanted()))
    && (q.term == "" || Contains(Text(m), q.term, q.whole))
  }

  function Direct(messages: Chunk, q: Query): Chunk {
    if messages == [] then []
    else (if Asked(messages[0], q) then [messages[0]] else []) + Direct(messages[1..], q)
  }

  function MonthOf(time: int, month: int -> string): string {
    if Seconds(time) != 0 then month(Seconds(time)) else "unknown"
  }

  /** The group a message belongs to by itself. */
  function OwnKey(g: GroupBy, m: Message, month: int -> string): string {
    match g
    case ByAuthor => m.user
    case ByChannel => "#" + m.channelName
    case ByMonth => MonthOf(m.time, month)
  }

  function OwnKeys(g: GroupBy, messages: Chunk, month: int -> string): (r: seq<string>)
    ensures |r| == |messages|
  {
    if messages == [] then [] else [OwnKey(g, messages[0], month)] + OwnKeys(g, messages[1..], month)
  }

  /** Filed under its chunk, a message is counted in its own group. */
  predicate FiledRight(g: GroupBy, c: Chunk, m: Message, month: int -> string)
    requires c != []
  { OwnKey(g, m, month) == Key(g, Store(c), m.user, month) }

  /** So are all the messages of these chunks that are asked for. */
  ghost predicate AllFiledRight(g: GroupBy, chunks: seq<Chunk>, q: Query, month: int -> string)
    requires forall i :: 0 <= i < |chunks| ==> chunks[i] != []
  {
    forall i, m :: 0 <= i < |chunks| && m in Direct(chunks[i], q) ==> FiledRight(g, chunks[i], m, month)
  }

  /** Every message prints to something the parser reads back, whatever chunk it lands in. */
  predicate GoodArchive(messages: Chunk) {
    forall i :: 0 <= i < |messages| ==> GoodAmong(messages[i], Speakers(messages))
  }

  predicate GoodAmong(m: Message, users: set<string>) {
    Good(m) && NoFalseSpeaker(Text(m), users) && GoodHeader([m], users)
  }

  /** The author asked for is more than "@" signs. */
  predicate Named(q: Query) { q.author != "" ==> q.Wanted() != "" }

  predicate NeverRenamed(messages: Chunk) {
    forall i, j :: 0 <= i < |messages| && 0 <= j < |messages| && messages[i].channelId == messages[j].channelId
      ==> messages[i].channelName == messages[j].channelName
  }

  lemma FewerSpeakers(m: Message, users: set<string>, fewer: set<string>)
    requires GoodAmong(m, users) && fewer <= users && fewer != {}
    ensures GoodAmong(m, fewer)
  {
    hide MatchLine, Fold, Strip, SplitNl;
  }

  lemma {:induction false} FlatMember(pieces: seq<Chunk>, i: nat, m: Message)
    requires i < |pieces| && m in pieces[i]
    ensures m in Flat(pieces)
  {
    if i > 0 { FlatMember(pieces[1..], i - 1, m); }
  }

  /** However a good archive is cut, its chunks parse back. */
  lemma {:induction false} PieceIsGood(pieces: seq<Chunk>, messages: Chunk, i: nat)
    requires Flat(pieces) == messages && GoodArchive(messages) && i < |pieces| && pieces[i] != []
    ensures GoodChunk(pieces[i])
  {
    hide GoodAmong, Good, NoFalseSpeaker, GoodHeader;
    var c := pieces[i];
    forall m | m in c ensures m in messages && GoodAmong(m, Speakers(messages)) {
      FlatMember(pieces, i, m);
      var j :| 0 <= j < |messages| && messages[j] == m;
    }
    assert Speakers(c) <= Speakers(messages);
    assert c[0] in c && Fold(c[0].user) in Speakers(c);
    forall k | 0 <= k < |c| ensures GoodAmong(c[k], Speakers(c)) {
      assert c[k] in c;
      FewerSpeakers(c[k], Speakers(messages), Speakers(c));
    }
    EachGood(c);
  }

  lemma EachGood(c: Chunk)
    requires c != [] && forall k :: 0 <= k < |c| ==> GoodAmong(c[k], Speakers(c))
    ensures GoodChunk(c)
  {
    hide Good, NoFalseSpeaker, Starts, OneLine, Speakers;
    assert GoodAmong(c[0], Speakers(c)) && Header([c[0]]) == Header(c);
  }

  // -- the prefilter drops nothing --

  /** Where a message's line starts in the printed chunk. */
  lemma {:induction false} LineInBody(c: Chunk, i: nat) returns (p: nat)
    requires i < |c|
    ensures var body := JoinLines(Lines(c));
      && p + |Line(c[i])| <= |body| && body[p..p + |Line(c[i])|] == Line(c[i]) && (p > 0 ==> body[p - 1] == '\n')
  {
    hide Line, JoinLines, Lines;
    LinesUnfold(c);
    if i == 0 {
      p := 0;
    } else {
      var tail := JoinLines(Lines(c[1..]));
      var lead := Line(c[0]) + "\n";
      p := LineInBody(c[1..], i - 1);
      var n := |Line(c[i])|;
      assert (lead + tail)[|lead| + p..|lead| + p + n] == tail[p..p + n];
      p := |lead| + p;
    }
  }

  lemma {:induction false} LineInDoc(c: Chunk, i: nat) returns (p: nat)
    requires i < |c|
    ensures var doc, n := Format(c), |Line(c[i])|;
      0 < p && p + n <= |doc| && doc[p..p + n] == Line(c[i]) && doc[p - 1] == '\n'
  {
    hide Line, Header, Format;
    FormatUnfold(c);
    var lead, body := Header(c) + "\n", JoinLines(Lines(c));
    p := LineInBody(c, i);
    var n := |Line(c[i])|;
    assert (lead + body)[|lead| + p..|lead| + p + n] == body[p..p + n];
    assert p > 0 ==> (lead + body)[|lead| + p - 1] == body[p - 1];
    p := |lead| + p;
  }

  /** A term found in a message's text is found in any document that holds the text after a space. */
  lemma TermInDoc(doc: string, t: string, p: nat, term: string, whole: bool)
    requires 0 < p && p + |t| <= |doc| && doc[p..p + |t|] == t && doc[p - 1] == ' '
    requires term != "" && Contains(t, term, whole)
    ensures Contains(doc, term, whole)
  {
    hide Fold;
    var i :| 0 <= i <= |t| && HitAt(t, term, whole, i);
    forall k | 0 <= k < |t| ensures doc[p + k] == t[k] { assert doc[p..p + |t|][k] == doc[p + k]; }
    assert doc[p + i..p + i + |term|] == t[i..i + |term|];
    assert doc[p + i] == t[i] && (i > 0 ==> doc[p + i - 1] == t[i - 1]);
    assert Boundary(doc, p + i) == Boundary(t, i);
    assert HitAt(doc, term, whole, p + i);
  }

  /** A chunk holding a message that was asked for passes the filter. */
  lemma AskedPasses(c: Chunk, i: nat, q: Query)
    requires i < |c| && Asked(c[i], q)
    ensures Passes(Format(c), q)
  {
    hide Format, Contains, Fold;
    var m, doc := c[i], Format(c);
    var p := LineInDoc(c, i);
    var u, t := m.user, Text(m);
    var n := |Line(m)|;
    assert Line(m) == u + ": " + t;
    forall k | 0 <= k < n ensures doc[p + k] == Line(m)[k] { assert doc[p..p + n][k] == doc[p + k]; }
    if q.author != "" {
      assert |u| == |q.Wanted()| by { SameLength(u, q.Wanted()); }
      assert Line(m)[..|u|] == u && Line(m)[|u|] == ':';
      assert doc[p..p + |u|] == Line(m)[..|u|] && doc[p + |u|] == Line(m)[|u|];
      assert SpokenAt(doc, q.Wanted(), p);
    }
    if q.term != "" {
      assert Line(m)[|u| + 2..] == t && Line(m)[|u| + 1] == ' ';
      assert doc[p + |u| + 2..p + n] == Line(m)[|u| + 2..];
      TermInDoc(doc, t, p + |u| + 2, q.term, q.whole);
    }
  }

  lemma SameLength(a: string, b: string)
    requires Fold(a) == Fold(b)
    ensures |a| == |b|
  {
    assert |Fold(a)| == |a| && |Fold(b)| == |b|;
  }

  // -- what is found in one chunk --

  lemma {:induction false} HitsOfSaid(c: Chunk, q: Query)
    requires Named(q)
    ensures Hits(Said(c), q) == Said(Direct(c, q))
  {
    hide Contains, Fold, Text;
    if c != [] {
      var first := (c[0].user, Text(c[0]));
      assert Said(c) == [first] + Said(c[1..]) && Said(c)[1..] == Said(c[1..]);
      HitsOfSaid(c[1..], q);
      var rest := Direct(c[1..], q);
      assert ([c[0]] + rest)[1..] == rest && [] + rest == rest;
      assert Says(first.0, first.1, q) == Asked(c[0], q);
    }
  }

  /** In one chunk the search finds exactly the messages that were asked for, in order. */
  lemma {:induction false} ChunkHitsExactly(c: Chunk, q: Query)
    requires c != [] && GoodChunk(c) && Named(q)
    ensures HitsIn(Store(c), q) == Said(Direct(c, q))
  {
    hide Parse, GoodChunk, Hits, Direct, Said;
    ParseUndoesPrint(c);
    HitsOfSaid(c, q);
  }

  lemma {:induction false} SomeAsked(c: Chunk, q: Query) returns (i: nat)
    requires Direct(c, q) != []
    ensures i < |c| && Asked(c[i], q)
  {
    if Asked(c[0], q) {
      i := 0;
    } else {
      i := SomeAsked(c[1..], q);
      i := i + 1;
    }
  }

  /** A chunk the filter drops holds no message that was asked for. */
  lemma {:induction false} DroppedHoldsNone(c: Chunk, q: Query)
    requires !Passes(Format(c), q)
    ensures Direct(c, q) == []
  {
    hide Passes, Asked;
    if Direct(c, q) != [] {
      var i := SomeAsked(c, q);
      AskedPasses(c, i, q);
    }
  }

  // -- the whole index --

  predicate GoodChunks(chunks: seq<Chunk>) {
    forall i :: 0 <= i < |chunks| ==> chunks[i] != [] && GoodChunk(chunks[i])
  }

  lemma {:induction false} DirectConcat(a: Chunk, b: Chunk, q: Query)
    ensures Direct(a + b, q) == Direct(a, q) + Direct(b, q)
  {
    hide Asked;
    if a == [] {
      assert a + b == b;
    } else {
      assert (a + b)[1..] == a[1..] + b;
      DirectConcat(a[1..], b, q);
    }
  }

  /** The filter only spares work: what passes it yields every hit. */
  lemma {:induction false} FilterLosesNothing(chunks: seq<Chunk>, q: Query, g: GroupBy, month: int -> string)
    requires GoodChunks(chunks) && Named(q)
    ensures Counted(Passing(StoreAll(chunks), q), q, g, month) == Counted(StoreAll(chunks), q, g, month)
  {
    hide GoodChunk, Passes, Store, HitsIn, Direct, Named;
    if chunks != [] {
      var s, rest := Store(chunks[0]), StoreAll(chunks[1..]);
      FilterLosesNothing(chunks[1..], q, g, month);
      assert StoreAll(chunks) == [s] + rest && StoreAll(chunks)[1..] == rest;
      StoredDoc(chunks[0]);
      if Passes(s.doc, q) {
        assert ([s] + Passing(rest, q))[1..] == Passing(rest, q);
      } else {
        DroppedHoldsNone(chunks[0], q);
        ChunkHitsExactly(chunks[0], q);
        assert HitsIn(s, q) == [];
        assert [] + Passing(rest, q) == Passing(rest, q);
        assert [] + Counted(rest, q, g, month) == Counted(rest, q, g, month);
      }
    }
  }

  lemma StoredDoc(c: Chunk)
    requires c != []
    ensures Store(c).doc == Format(c) && Store(c).channelName == c[0].channelName
  {
  }

  /** A chunk's messages are counted in their own groups exactly when each is filed right. */
  lemma {:induction false} KeysOfSaid(g: GroupBy, c: Chunk, found: Chunk, month: int -> string)
    requires c != []
    ensures |Keys(g, Store(c), Said(found), month)| == |found|
    ensures Keys(g, Store(c), Said(found), month) == OwnKeys(g, found, month)
      <==> forall m :: m in found ==> FiledRight(g, c, m, month)
  {
    hide Store, Text, OwnKey, Key;
    if found != [] {
      assert Said(found)[1..] == Said(found[1..]);
      KeysOfSaid(g, c, found[1..], month);
      var ks, os := Keys(g, Store(c), Said(found[1..]), month), OwnKeys(g, found[1..], month);
      var k, o := Key(g, Store(c), found[0].user, month), OwnKey(g, found[0], month);
      SameParts([k], ks, [o], os);
      assert Keys(g, Store(c), Said(found), month) == [k] + ks && OwnKeys(g, found, month) == [o] + os;
      assert FiledRight(g, c, found[0], month) <==> [k][0] == [o][0];
      if forall m :: m in found ==> FiledRight(g, c, m, month) {
        assert found[0] in found && forall m :: m in found[1..] ==> m in found;
      } else {
        assert forall m :: m in found ==> m == found[0] || m in found[1..];
      }
    }
  }

  lemma SameParts(a: seq<string>, b: seq<string>, c: seq<string>, d: seq<string>)
    requires |a| == |c| && |b| == |d|
    ensures a + b == c + d <==> a == c && b == d
  {
    if a + b == c + d {
      assert a == (a + b)[..|a|] && b == (a + b)[|a|..] && c == (c + d)[..|a|] && d == (c + d)[|a|..];
    }
  }

  lemma {:induction false} DirectIsSubset(c: Chunk, q: Query, m: Message)
    requires m in Direct(c, q)
    ensures m in c
  {
    if m !in Direct(c[1..], q) { } else { DirectIsSubset(c[1..], q, m); }
  }

  lemma {:induction false} OwnKeysConcat(g: GroupBy, a: Chunk, b: Chunk, month: int -> string)
    ensures OwnKeys(g, a + b, month) == OwnKeys(g, a, month) + OwnKeys(g, b, month)
  {
    hide OwnKey;
    if a == [] {
      assert a + b == b;
    } else {
      assert (a + b)[1..] == a[1..] + b;
      OwnKeysConcat(g, a[1..], b, month);
    }
  }

  /** Counting every chunk is counting the messages the chunks were cut from. */
  lemma {:induction false} CountedIsDirect(chunks: seq<Chunk>, q: Query, g: GroupBy, month: int -> string)
    requires GoodChunks(chunks) && Named(q)
    ensures |Counted(StoreAll(chunks), q, g, month)| == |Direct(Flat(chunks), q)|
    ensures Counted(StoreAll(chunks), q, g, month) == OwnKeys(g, Direct(Flat(chunks), q), month)
      <==> AllFiledRight(g, chunks, q, month)
  {
    hide GoodChunk, Store, HitsIn, Direct, Named, Said, Keys, OwnKeys, FiledRight;
    if chunks == [] {
      NothingDirect(q, g, month);
    } else {
      var c, rest := chunks[0], StoreAll(chunks[1..]);
      var found, later := Direct(c, q), Direct(Flat(chunks[1..]), q);
      assert StoreAll(chunks)[1..] == rest;
      CountedIsDirect(chunks[1..], q, g, month);
      ChunkHitsExactly(c, q);
      KeysOfSaid(g, c, found, month);
      DirectConcat(c, Flat(chunks[1..]), q);
      OwnKeysConcat(g, found, later, month);
      SameParts(Keys(g, Store(c), Said(found), month), Counted(rest, q, g, month),
                OwnKeys(g, found, month), OwnKeys(g, later, month));
      FiledParts(g, chunks, q, month);
    }
  }

  lemma FiledParts(g: GroupBy, chunks: seq<Chunk>, q: Query, month: int -> string)
    requires chunks != [] && forall i :: 0 <= i < |chunks| ==> chunks[i] != []
    ensures AllFiledRight(g, chunks, q, month)
      <==> ((forall m :: m in Direct(chunks[0], q) ==> FiledRight(g, chunks[0], m, month))
            && AllFiledRight(g, chunks[1..], q, month))
  {
    hide Direct, FiledRight;
    if AllFiledRight(g, chunks, q, month) {
      forall i, m | 0 <= i < |chunks[1..]| && m in Direct(chunks[1..][i], q)
        ensures FiledRight(g, chunks[1..][i], m, month)
      {
        assert chunks[1..][i] == chunks[i + 1];
      }
    }
    if AllFiledRight(g, chunks[1..], q, month) {
      forall i, m | 0 < i < |chunks| && m in Direct(chunks[i], q) ensures FiledRight(g, chunks[i], m, month) {
        assert chunks[1..][i - 1] == chunks[i];
      }
    }
  }

  lemma NothingDirect(q: Query, g: GroupBy, month: int -> string)
    ensures Direct([], q) == [] && OwnKeys(g, [], month) == [] && Said([]) == []
  {
  }

  /** Speakers are always filed right, and channels are if none was ever renamed. */
  lemma {:induction false} FiledRightAnyway(chunks: seq<Chunk>, messages: Chunk, gap: int, cap: int, q: Query,
                                            g: GroupBy, month: int -> string)
    requires Division(chunks, messages) && Chunked(chunks, gap, cap)
    requires g == ByAuthor || (g == ByChannel && NeverRenamed(messages))
    ensures AllFiledRight(g, chunks, q, month)
  {
    hide Fits, Forced, Direct;
    forall i, m | 0 <= i < |chunks| && m in Direct(chunks[i], q) ensures FiledRight(g, chunks[i], m, month) {
      var c := chunks[i];
      StoredDoc(c);
      DirectIsSubset(c, q, m);
      var j :| 0 <= j < |c| && c[j] == m;
      OneChannel(c, gap, j);
      FlatMember(chunks, i, m);
      FlatMember(chunks, i, c[0]);
    }
  }

  /**
    For any good archive, however it was chunked, the messages counted through the
    index are those a direct reading finds: always in number, and message by message
    under the same label exactly when every message asked for is filed in its own group.
    Speakers always are, and channels when none was renamed.
  */
  lemma {:induction false} IndexCountsExactly(chunks: seq<Chunk>, messages: Chunk, gap: int, cap: int, q: Query,
                                              g: GroupBy, month: int -> string)
    requires Division(chunks, messages) && Chunked(chunks, gap, cap) && GoodArchive(messages) && Named(q)
    requires |Passing(StoreAll(chunks), q)| <= MAX_SCAN
    ensures var counted := Counted(Scan(StoreAll(chunks), q), q, g, month);
      && |counted| == |Direct(messages, q)|
      && (counted == OwnKeys(g, Direct(messages, q), month) <==> AllFiledRight(g, chunks, q, month))
      && (g == ByAuthor || (g == ByChannel && NeverRenamed(messages))
          ==> counted == OwnKeys(g, Direct(messages, q), month))
  {
    hide GoodArchive, GoodChunk, Chunked, Direct, Named, Counted, NeverRenamed, AllFiledRight, Passing, StoreAll,
         OwnKeys;
    forall i | 0 <= i < |chunks| ensures GoodChunk(chunks[i]) { PieceIsGood(chunks, messages, i); }
    FilterLosesNothing(chunks, q, g, month);
    CountedIsDirect(chunks, q, g, month);
    if g == ByAuthor || (g == ByChannel && NeverRenamed(messages)) {
      FiledRightAnyway(chunks, messages, gap, cap, q, g, month);
    }
  }

  // -- the literal search --

  function Shown(kept: seq<Found>): seq<(string, string)> {
    if kept == [] then [] else kept[0].hits + Shown(kept[1..])
  }

  /** The chunks that hold a message the query asks for. */
  function Holding(chunks: seq<Chunk>, q: Query): seq<Chunk> {
    if chunks == [] then [] else (if Direct(chunks[0], q) != [] then [chunks[0]] else []) + Holding(chunks[1..], q)
  }

  /** What the search should return for these chunks: each with exactly its messages that were asked for. */
  function Entries(chunks: seq<Chunk>, q: Query): seq<Found>
    requires forall i :: 0 <= i < |chunks| ==> chunks[i] != []
  {
    if chunks == [] then [] else [Found(Store(chunks[0]), Said(Direct(chunks[0], q)))] + Entries(chunks[1..], q)
  }

  lemma {:induction false} HoldingIsNonEmpty(chunks: seq<Chunk>, q: Query)
    requires forall i :: 0 <= i < |chunks| ==> chunks[i] != []
    ensures forall i :: 0 <= i < |Holding(chunks, q)| ==> Holding(chunks, q)[i] != []
  {
    hide Direct;
    if chunks != [] { HoldingIsNonEmpty(chunks[1..], q); }
  }

  lemma {:induction false} SaidConcat(a: Chunk, b: Chunk)
    ensures Said(a + b) == Said(a) + Said(b)
  {
    hide Text;
    if a == [] {
      assert a + b == b;
    } else {
      assert (a + b)[1..] == a[1..] + b;
      SaidConcat(a[1..], b);
    }
  }

  lemma {:induction false} KeptInChunk(c: Chunk, q: Query)
    requires c != [] && GoodChunk(c) && Named(q) && (q.term != "" || q.author != "")
    ensures Kept(Store(c), q) == if Direct(c, q) == [] then [] else [Found(Store(c), Said(Direct(c, q)))]
  {
    hide GoodChunk, Store, HitsIn, Direct;
    ChunkHitsExactly(c, q);
  }

  lemma {:induction false} KeptIsDirect(chunks: seq<Chunk>, q: Query)
    requires GoodChunks(chunks) && Named(q) && (q.term != "" || q.author != "")
    requires forall i :: 0 <= i < |Holding(chunks, q)| ==> Holding(chunks, q)[i] != []
    ensures var kept := KeptAll(Passing(StoreAll(chunks), q), q);
      kept == Entries(Holding(chunks, q), q) && Shown(kept) == Said(Direct(Flat(chunks), q))
  {
    hide GoodChunk, Store, Passes, Direct, Named, Kept, Said;
    if chunks == [] {
      NothingDirect(q, ByAuthor, i => "");
    } else {
      var c, s, rest := chunks[0], Store(chunks[0]), StoreAll(chunks[1..]);
      assert StoreAll(chunks) == [s] + rest && StoreAll(chunks)[1..] == rest;
      HoldingIsNonEmpty(chunks[1..], q);
      KeptIsDirect(chunks[1..], q);
      KeptInChunk(c, q);
      StoredDoc(c);
      DirectConcat(c, Flat(chunks[1..]), q);
      SaidConcat(Direct(c, q), Direct(Flat(chunks[1..]), q));
      var more := KeptAll(Passing(rest, q), q);
      if Passes(s.doc, q) {
        assert ([s] + Passing(rest, q))[1..] == Passing(rest, q);
        assert Kept(s, q) != [] ==> (Kept(s, q) + more)[1..] == more;
      } else {
        DroppedHoldsNone(c, q);
        assert [] + Passing(rest, q) == Passing(rest, q);
      }
      if Direct(c, q) == [] {
        assert [] + more == more && [] + Direct(Flat(chunks[1..]), q) == Direct(Flat(chunks[1..]), q);
        assert [] + Holding(chunks[1..], q) == Holding(chunks[1..], q);
      } else {
        assert ([c] + Holding(chunks[1..], q))[1..] == Holding(chunks[1..], q);
      }
    }
  }

  /**
    The search returns one entry for each chunk holding such a message, led by exactly its
    messages that were asked for.
  */
  lemma {:induction false} SearchFindsExactly(chunks: seq<Chunk>, messages: Chunk, q: Query)
    requires Division(chunks, messages) && GoodArchive(messages) && Named(q) && (q.term != "" || q.author != "")
    requires |Passing(StoreAll(chunks), q)| <= MAX_SCAN
    ensures forall i :: 0 <= i < |Holding(chunks, q)| ==> Holding(chunks, q)[i] != []
    ensures var kept := KeptAll(Scan(StoreAll(chunks), q), q);
      kept == Entries(Holding(chunks, q), q) && Shown(kept) == Said(Direct(messages, q))
  {
    hide GoodArchive, GoodChunk, Direct, Named, KeptAll, Passing, StoreAll, Shown, Holding, Entries;
    forall i | 0 <= i < |chunks| ensures GoodChunk(chunks[i]) { PieceIsGood(chunks, messages, i); }
    HoldingIsNonEmpty(chunks, q);
    KeptIsDirect(chunks, q);
  }

  // -- the scan limit --

  /** The chunks the filter lets through. */
  function Through(chunks: seq<Chunk>, q: Query): seq<Chunk> {
    if chunks == [] then []
    else (if Passes(Format(chunks[0]), q) then [chunks[0]] else []) + Through(chunks[1..], q)
  }

  lemma {:induction false} PassingIsThrough(chunks: seq<Chunk>, q: Query)
    requires GoodChunks(chunks)
    ensures GoodChunks(Through(chunks, q)) && Passing(StoreAll(chunks), q) == StoreAll(Through(chunks, q))
  {
    hide GoodChunk, Passes, Store, Format;
    if chunks != [] {
      var c, rest := chunks[0], Through(chunks[1..], q);
      PassingIsThrough(chunks[1..], q);
      StoredDoc(c);
      assert StoreAll(chunks)[1..] == StoreAll(chunks[1..]);
      assert ([c] + rest)[1..] == rest && [] + rest == rest;
      assert [] + StoreAll(rest) == StoreAll(rest);
    }
  }

  lemma {:induction false} StoreSuffix(chunks: seq<Chunk>, k: nat)
    requires k <= |chunks| && forall i :: 0 <= i < |chunks| ==> chunks[i] != []
    ensures |StoreAll(chunks)| == |chunks| && StoreAll(chunks)[k..] == StoreAll(chunks[k..])
    decreases |chunks|
  {
    hide Store;
    if chunks != [] {
      assert StoreAll(chunks)[1..] == StoreAll(chunks[1..]);
      StoreSuffix(chunks[1..], if k > 0 then k - 1 else 0);
      if k > 0 {
        assert chunks[1..][k - 1..] == chunks[k..] && StoreAll(chunks)[1..][k - 1..] == StoreAll(chunks)[k..];
      }
    }
  }

  /** None of these chunks holds a message the query asks for. */
  ghost predicate NoneHolds(chunks: seq<Chunk>, q: Query) {
    forall i :: 0 <= i < |chunks| ==> Direct(chunks[i], q) == []
  }

  lemma {:induction false} NothingInThem(chunks: seq<Chunk>, q: Query)
    ensures Direct(Flat(chunks), q) == [] <==> NoneHolds(chunks, q)
  {
    hide Direct;
    if chunks == [] {
      NothingDirect(q, ByAuthor, i => "");
    } else {
      NothingInThem(chunks[1..], q);
      DirectConcat(chunks[0], Flat(chunks[1..]), q);
      if NoneHolds(chunks[1..], q) && Direct(chunks[0], q) == [] {
        forall i | 0 <= i < |chunks| ensures Direct(chunks[i], q) == [] {
          if i > 0 { assert chunks[1..][i - 1] == chunks[i]; }
        }
      }
    }
  }

  /** The chunks one query does not get to. */
  function LeftOut(chunks: seq<Chunk>, q: Query): seq<Chunk> {
    var through := Through(chunks, q);
    if |through| <= MAX_SCAN then [] else through[MAX_SCAN..]
  }

  /** The total is never too high, and is right exactly when no chunk left out holds a message that was asked for. */
  lemma {:induction false} ScanLimitUndercounts(chunks: seq<Chunk>, messages: Chunk, q: Query, g: GroupBy,
                                                month: int -> string)
    requires Division(chunks, messages) && GoodArchive(messages) && Named(q)
    ensures var counted := Counted(Scan(StoreAll(chunks), q), q, g, month);
      && |counted| <= |Direct(messages, q)|
      && (|counted| == |Direct(messages, q)| <==> NoneHolds(LeftOut(chunks, q), q))
  {
    hide GoodArchive, GoodChunk, Direct, Named, Counted, Passing, StoreAll, Through, Passes;
    forall i | 0 <= i < |chunks| ensures GoodChunk(chunks[i]) { PieceIsGood(chunks, messages, i); }
    FilterLosesNothing(chunks, q, g, month);
    CountedIsDirect(chunks, q, g, month);
    PassingIsThrough(chunks, q);
    var all, through, k := Passing(StoreAll(chunks), q), Through(chunks, q), MAX_SCAN;
    StoreSuffix(through, 0);
    if |through| > k {
      CountedConcat(all[..k], all[k..], q, g, month);
      assert all[..k] + all[k..] == all;
      StoreSuffix(through, k);
      CountedIsDirect(through[k..], q, g, month);
      NothingInThem(through[k..], q);
    }
  }

  // -- past the scan limit --

  /** Messages of one speaker, each too late to join the one before. */
  function Lone(i: nat, gap: nat): Message { Message("1", "u", "7", "c", i * (gap + 1), "s", "x", "") }

  function Lones(n: nat, gap: nat): (r: Chunk)
    ensures |r| == n && forall i :: 0 <= i < n ==> r[i] == Lone(i, gap)
  {
    if n == 0 then [] else Lones(n - 1, gap) + [Lone(n - 1, gap)]
  }

  function LoneChunks(n: nat, gap: nat): (r: seq<Chunk>)
    ensures |r| == n && forall i :: 0 <= i < n ==> r[i] == [Lone(i, gap)]
  {
    if n == 0 then [] else LoneChunks(n - 1, gap) + [[Lone(n - 1, gap)]]
  }

  lemma {:induction false} LonesDivide(n: nat, gap: nat)
    ensures Flat(LoneChunks(n, gap)) == Lones(n, gap)
  {
    if n > 0 {
      LonesDivide(n - 1, gap);
      FlatAppend(LoneChunks(n - 1, gap), [Lone(n - 1, gap)]);
    }
  }

  lemma {:induction false} LonesAreChunked(n: nat, gap: nat, cap: int)
    ensures Chunked(LoneChunks(n, gap), gap, cap)
  {
    hide Tokens;
    var chunks := LoneChunks(n, gap);
    forall i | 0 <= i < n - 1 ensures Forced(chunks[i], chunks[i + 1], gap, cap) {
      assert Lone(i + 1, gap).time - Lone(i, gap).time == gap + 1;
    }
  }

  lemma {:induction false} LoneIsGood(m: Message)
    requires m.user == "u" && m.channelName == "c" && m.stamp == "s" && m.content == "x" && m.caption == ""
    ensures forall users :: GoodAmong(m, users)
  {
    IndexIs("x", '\n', 1);
    assert SplitNl("x") == ["x"];
    var h := Header([m]);
    assert h == "[#c | s]";
    IndexIs(h, ':', |h|);
  }

  lemma {:induction false} LonesAreGood(n: nat, gap: nat)
    ensures GoodArchive(Lones(n, gap))
  {
    hide GoodAmong, Speakers;
    forall i | 0 <= i < n ensures GoodAmong(Lones(n, gap)[i], Speakers(Lones(n, gap))) { LoneIsGood(Lone(i, gap)); }
  }

  lemma {:induction false} AllLonesAsked(n: nat, gap: nat)
    ensures Direct(Lones(n, gap), Query("", "u", false)) == Lones(n, gap)
  {
    hide Fold;
    var q := Query("", "u", false);
    if n > 0 {
      AllLonesAsked(n - 1, gap);
      DirectConcat(Lones(n - 1, gap), [Lone(n - 1, gap)], q);
      var one := [Lone(n - 1, gap)];
      assert one[1..] == [] && Direct(one, q) == one + Direct([], q) == one;
    }
  }

  lemma {:induction false} AllPass(chunks: seq<Chunk>, q: Query)
    requires forall i :: 0 <= i < |chunks| ==> chunks[i] != [] && Passes(Format(chunks[i]), q)
    ensures Passing(StoreAll(chunks), q) == StoreAll(chunks) && |StoreAll(chunks)| == |chunks|
  {
    hide Passes, Store;
    if chunks != [] {
      StoredDoc(chunks[0]);
      assert StoreAll(chunks)[1..] == StoreAll(chunks[1..]);
      AllPass(chunks[1..], q);
    }
  }

  lemma {:induction false} StorePrefix(chunks: seq<Chunk>, k: nat)
    requires k <= |chunks| && forall i :: 0 <= i < |chunks| ==> chunks[i] != []
    ensures |StoreAll(chunks)| == |chunks| && StoreAll(chunks)[..k] == StoreAll(chunks[..k])
    decreases |chunks|
  {
    hide Store;
    if k > 0 {
      StorePrefix(chunks[1..], k - 1);
      assert StoreAll(chunks)[1..] == StoreAll(chunks[1..]) && chunks[..k][1..] == chunks[1..][..k - 1];
      assert StoreAll(chunks)[..k] == [Store(chunks[0])] + StoreAll(chunks[1..])[..k - 1];
    } else if chunks != [] {
      StorePrefix(chunks[1..], 0);
    }
  }

  /** An archive of n > MAX_SCAN lone messages by one speaker: all n are asked for, MAX_SCAN are counted. */
  lemma {:induction false} ScanLimitMiscounts(n: nat, gap: nat, cap: int, g: GroupBy, month: int -> string)
    requires n > MAX_SCAN
    ensures var chunks, messages, q := LoneChunks(n, gap), Lones(n, gap), Query("", "u", false);
      && Division(chunks, messages) && Chunked(chunks, gap, cap) && GoodArchive(messages) && Named(q)
      && |Direct(messages, q)| == n && |Counted(Scan(StoreAll(chunks), q), q, g, month)| == MAX_SCAN
  {
    hide Chunked, GoodArchive, Counted, Direct, StoreAll, Lones, LoneChunks;
    var chunks, messages, q := LoneChunks(n, gap), Lones(n, gap), Query("", "u", false);
    LonesDivide(n, gap);
    LonesAreChunked(n, gap, cap);
    LonesAreGood(n, gap);
    AllLonesAsked(n, gap);
    assert q.Wanted() == "u" && Named(q);
    LonesPass(n, gap);
    StorePrefix(chunks, MAX_SCAN);
    assert chunks[..MAX_SCAN] == LoneChunks(MAX_SCAN, gap);
    LonesAreCounted(MAX_SCAN, gap, g, month);
  }

  lemma {:induction false} LonesPass(n: nat, gap: nat)
    ensures var chunks, q := LoneChunks(n, gap), Query("", "u", false);
      Passing(StoreAll(chunks), q) == StoreAll(chunks) && |StoreAll(chunks)| == n && GoodChunks(chunks)
  {
    hide GoodArchive, GoodChunk, Passes, Asked, Lones, LoneChunks;
    var chunks, q := LoneChunks(n, gap), Query("", "u", false);
    LonesDivide(n, gap);
    LonesAreGood(n, gap);
    forall i | 0 <= i < n ensures GoodChunk(chunks[i]) && Passes(Format(chunks[i]), q) {
      PieceIsGood(chunks, Lones(n, gap), i);
      LoneIsAsked(i, gap);
      AskedPasses(chunks[i], 0, q);
    }
    AllPass(chunks, q);
  }

  lemma {:induction false} LonesAreCounted(n: nat, gap: nat, g: GroupBy, month: int -> string)
    ensures var chunks, q := LoneChunks(n, gap), Query("", "u", false);
      GoodChunks(chunks) && |Counted(StoreAll(chunks), q, g, month)| == n
  {
    hide GoodChunk, Counted, Direct, StoreAll, Passing, Lones, LoneChunks, OwnKeys;
    var chunks, q := LoneChunks(n, gap), Query("", "u", false);
    assert q.Wanted() == "u" && Named(q);
    LonesPass(n, gap);
    LonesDivide(n, gap);
    AllLonesAsked(n, gap);
    CountedIsDirect(chunks, q, g, month);
  }

  lemma LoneIsAsked(i: nat, gap: nat)
    ensures Asked(Lone(i, gap), Query("", "u", false))
  {
    assert Query("", "u", false).Wanted() == "u";
  }

  // -- an author of "@" signs --

  /** The same term, whoever said it. */
  function Anyone(q: Query): Query { Query(q.term, "", q.whole) }

  /** An author of "@" signs alone asks for nobody, but the per-message check then lets everybody through. */
  lemma {:induction false} AtSignsMatchEverybody(c: Chunk, q: Query)
    requires c != [] && GoodChunk(c) && !Named(q)
    ensures Direct(c, q) == [] && HitsIn(Store(c), q) == Said(Direct(c, Anyone(q)))
    ensures Passes(Format(c), q) <==> Passes(Format(c), Anyone(q)) && SpokeIn(Format(c), "")
  {
    hide Parse, Hits, Said, Direct, Fold, GoodChunk, Contains, SpokeIn;
    ParseUndoesPrint(c);
    SameHits(Said(c), q);
    ChunkHitsExactly(c, Anyone(q));
    if Direct(c, q) != [] {
      var i := SomeAsked(c, q);
      GoodParts(c);
      NobodyIsNameless(c[i], q);
    }
  }

  lemma NobodyIsNameless(m: Message, q: Query)
    requires GoodName(m.user) && !Named(q)
    ensures !Asked(m, q)
  {
    if Fold(m.user) == Fold("") { SameLength(m.user, ""); }
  }

  lemma {:induction false} SameHits(said: seq<(string, string)>, q: Query)
    requires !Named(q)
    ensures Hits(said, q) == Hits(said, Anyone(q))
  {
    hide Fold, Contains;
    if said != [] { SameHits(said[1..], q); }
  }

  lemma {:induction false} NobodyDirect(chunks: seq<Chunk>, q: Query)
    requires GoodChunks(chunks) && !Named(q)
    ensures Direct(Flat(chunks), q) == []
  {
    hide GoodChunk, Direct, Named;
    if chunks == [] {
      NothingDirect(q, ByAuthor, i => "");
    } else {
      AtSignsMatchEverybody(chunks[0], q);
      NobodyDirect(chunks[1..], q);
      DirectConcat(chunks[0], Flat(chunks[1..]), q);
    }
  }

  /** No chunk with a line starting ":" holds a message with the term in it. */
  ghost predicate NothingBesideColon(chunks: seq<Chunk>, q: Query) {
    forall i :: 0 <= i < |chunks| && SpokeIn(Format(chunks[i]), "") ==> Direct(chunks[i], Anyone(q)) == []
  }

  lemma {:induction false} AtSignsCountNothingIff(chunks: seq<Chunk>, q: Query, g: GroupBy, month: int -> string)
    requires GoodChunks(chunks) && !Named(q)
    ensures Counted(Passing(StoreAll(chunks), q), q, g, month) == [] <==> NothingBesideColon(chunks, q)
  {
    hide GoodChunk, Direct, Named, Store, Passes, HitsIn, SpokeIn, Said, Keys, Format;
    if chunks != [] {
      var c, s, rest := chunks[0], Store(chunks[0]), StoreAll(chunks[1..]);
      assert StoreAll(chunks) == [s] + rest && StoreAll(chunks)[1..] == rest;
      AtSignsCountNothingIff(chunks[1..], q, g, month);
      AtSignsMatchEverybody(c, q);
      StoredDoc(c);
      KeysOfSaid(g, c, Direct(c, Anyone(q)), month);
      if Direct(c, Anyone(q)) != [] {
        var i := SomeAsked(c, Anyone(q));
        AskedPasses(c, i, Anyone(q));
      }
      if Passes(s.doc, q) {
        assert ([s] + Passing(rest, q))[1..] == Passing(rest, q);
      } else {
        assert [] + Passing(rest, q) == Passing(rest, q);
      }
      ColonParts(chunks, q);
    }
  }

  lemma ColonParts(chunks: seq<Chunk>, q: Query)
    requires chunks != []
    ensures NothingBesideColon(chunks, q) <==>
      (SpokeIn(Format(chunks[0]), "") ==> Direct(chunks[0], Anyone(q)) == []) && NothingBesideColon(chunks[1..], q)
  {
    hide Direct, SpokeIn, Format;
    if NothingBesideColon(chunks[1..], q) {
      forall i | 0 < i < |chunks| && SpokeIn(Format(chunks[i]), "") ensures Direct(chunks[i], Anyone(q)) == [] {
        assert chunks[1..][i - 1] == chunks[i];
      }
    }
  }

  /**
    For an author of "@" signs alone nobody is asked for, and the count is right exactly
    when no chunk with a line starting ":" holds a message with the term in it.
  */
  lemma {:induction false} AtSignsAreRightIff(chunks: seq<Chunk>, messages: Chunk, q: Query, g: GroupBy,
                                              month: int -> string)
    requires Division(chunks, messages) && GoodArchive(messages) && !Named(q)
    ensures Direct(messages, q) == []
    ensures var counted := Counted(Passing(StoreAll(chunks), q), q, g, month);
      counted == OwnKeys(g, Direct(messages, q), month) <==> NothingBesideColon(chunks, q)
  {
    hide GoodArchive, GoodChunk, Direct, Named, Counted, Passing, StoreAll, NothingBesideColon;
    forall i | 0 <= i < |chunks| ensures GoodChunk(chunks[i]) { PieceIsGood(chunks, messages, i); }
    NobodyDirect(chunks, q);
    AtSignsCountNothingIff(chunks, q, g, month);
  }

  /** A smiley on a line of its own is enough: nobody is asked for and one message is counted. */
  lemma {:induction false} AtSignsMiscount(month: int -> string)
    ensures var m, q := Message("1", "u", "7", "c", 0, "s", "a\n:b", ""), Query("", "@", false);
      && GoodArchive([m]) && Direct([m], q) == []
      && |Counted(Scan([Store([m])], q), q, ByAuthor, month)| == 1
  {
    var m, q := Message("1", "u", "7", "c", 0, "s", "a\n:b", ""), Query("", "@", false);
    var c := [m];
    SmileyIsGood(m);
    EachGood(c);
    SmileyPrints(c);
    assert q.Wanted() == "" by { assert LStripAt("@"[1..]) == ""; }
    OnlyHit(m, q, month);
  }

  lemma {:induction false} OnlyHit(m: Message, q: Query, month: int -> string)
    requires GoodArchive([m]) && GoodChunk([m]) && !Named(q) && q.term == "" && SpokeIn(Format([m]), "")
    ensures Direct([m], q) == [] && |Counted(Scan([Store([m])], q), q, ByAuthor, month)| == 1
  {
    hide GoodArchive, GoodChunk, Format, Said, Keys, HitsIn, Direct, Counted, Passes, SpokeIn;
    var c := [m];
    var s := Store(c);
    AtSignsMatchEverybody(c, q);
    EverybodyDirect(m, q);
    AskedPasses(c, 0, Anyone(q));
    StoredDoc(c);
    assert [s][1..] == [] && Passing([s], q) == [s] + Passing([], q) == [s];
    CountedOne(s, q, ByAuthor, month);
    KeysOfSaid(ByAuthor, c, c, month);
  }

  lemma EverybodyDirect(m: Message, q: Query)
    requires q.term == ""
    ensures Asked(m, Anyone(q)) && Direct([m], Anyone(q)) == [m]
  {
    assert [m][1..] == [];
  }

  lemma SmileyPrints(c: Chunk)
    requires c == [Message("1", "u", "7", "c", 0, "s", "a\n:b", "")]
    ensures SpokeIn(Format(c), "")
  {
    hide Fold;
    FormatUnfold(c);
    LinesUnfold(c);
    assert Format(c) == "[#c | s]\nu: a\n:b";
    assert Format(c)[14..14] == "";
    assert SpokenAt(Format(c), "", 14);
  }

  lemma {:induction false} SmileyIsGood(m: Message)
    requires m == Message("1", "u", "7", "c", 0, "s", "a\n:b", "")
    ensures forall users :: GoodAmong(m, users)
  {
    IndexIs("a\n:b", '\n', 1);
    IndexIs(":b", '\n', 2);
    IndexIs(":b", ':', 0);
    assert "a\n:b"[..1] == "a" && "a\n:b"[2..] == ":b" && SplitNl(":b") == [":b"];
    assert SplitNl("a\n:b") == ["a", ":b"];
    var h := Header([m]);
    assert h == "[#c | s]";
    IndexIs(h, ':', |h|);
  }
}
