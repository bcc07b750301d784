/**
  Grouping archived messages into conversation chunks, and splitting a chunk that
  is over the token cap.
*/
module Ingest {
  import opened Transcript

  // -- divisions --

  function Flat(pieces: seq<Chunk>): Chunk {
    if pieces == [] then [] else pieces[0] + Flat(pieces[1..])
  }

  /** The pieces are non-empty and hold the messages, each once, in order. */
  predicate Division(pieces: seq<Chunk>, messages: Chunk) {
    Flat(pieces) == messages && forall i :: 0 <= i < |pieces| ==> pieces[i] != []
  }

  lemma {:induction false} FlatConcat(a: seq<Chunk>, b: seq<Chunk>)
    ensures Flat(a + b) == Flat(a) + Flat(b)
  {
    if a == [] {
      assert a + b == b;
    } else {
      assert (a + b)[1..] == a[1..] + b;
      FlatConcat(a[1..], b);
    }
  }

  lemma FlatAppend(a: seq<Chunk>, c: Chunk)
    ensures Flat(a + [c]) == Flat(a) + c
  {
    FlatConcat(a, [c]);
    assert Flat([c]) == c + Flat([]);
  }

  lemma DivisionTail(pieces: seq<Chunk>, messages: Chunk)
    requires Division(pieces, messages) && messages != []
    ensures pieces != [] && |pieces[0]| <= |messages| && pieces[0] == messages[..|pieces[0]|]
    ensures Division(pieces[1..], messages[|pieces[0]|..])
  {
    assert messages == pieces[0] + Flat(pieces[1..]);
  }

  // -- conversations --

  /** `m` continues the conversation `prev` ended. */
  predicate Continues(prev: Message, m: Message, gap: int) {
    prev.channelId == m.channelId && m.time - prev.time <= gap
  }

  predicate Conversation(c: Chunk, gap: int) {
    forall i :: 0 <= i < |c| - 1 ==> Continues(c[i], c[i + 1], gap)
  }

  lemma {:induction false} OneChannel(c: Chunk, gap: int, i: nat)
    requires Conversation(c, gap) && i < |c|
    ensures c[i].channelId == c[0].channelId
  {
    if i > 0 {
      OneChannel(c, gap, i - 1);
      assert Continues(c[i - 1], c[i - 1 + 1], gap);
    }
  }

  /** Between these two pieces the conversation really ended. */
  predicate Broken(a: Chunk, b: Chunk, gap: int) {
    a != [] && b != [] && !Continues(a[|a| - 1], b[0], gap)
  }

  function LastOf(c: Chunk): Message
    requires c != []
  { c[|c| - 1] }

  lemma BrokenEnds(a: Chunk, b: Chunk, a': Chunk, b': Chunk, gap: int)
    requires Broken(a, b, gap) && a' != [] && b' != [] && LastOf(a) == LastOf(a') && b[0] == b'[0]
    ensures Broken(a', b', gap)
  {
  }

  /** Conversations, each ended by the start of the next. */
  predicate Conversations(chunks: seq<Chunk>, gap: int) {
    && (forall i :: 0 <= i < |chunks| ==> chunks[i] != [] && Conversation(chunks[i], gap))
    && (forall i :: 0 <= i < |chunks| - 1 ==> Broken(chunks[i], chunks[i + 1], gap))
  }

  lemma ConversationGrows(c: Chunk, m: Message, gap: int)
    requires Conversation(c, gap) && (c != [] ==> Continues(LastOf(c), m, gap))
    ensures Conversation(c + [m], gap)
  {
  }

  lemma ConversationsGrow(done: seq<Chunk>, current: Chunk, gap: int)
    requires Conversations(done, gap) && Conversation(current, gap) && current != []
    requires done != [] ==> Broken(done[|done| - 1], current, gap)
    ensures Conversations(done + [current], gap)
  {
    hide Conversation, Broken;
  }

  /** The grouping loop of `chunk_by_conversation`: maximal conversations, in order. */
  method Group(messages: Chunk, gap: int) returns (chunks: seq<Chunk>)
    requires messages != []
    ensures Division(chunks, messages) && Conversations(chunks, gap)
  {
    hide Conversation, Conversations;
    var done: seq<Chunk> := [];
    var current: Chunk := [];
    NoConversation(gap);
    for i := 0 to |messages|
      invariant (i == 0) == (current == [])
      invariant i == 0 ==> done == []
      invariant Flat(done) + current == messages[..i]
      invariant Conversations(done, gap) && Conversation(current, gap)
      invariant done != [] ==> Broken(done[|done| - 1], current, gap)
    {
      var msg := messages[i];
      assert messages[..i + 1] == messages[..i] + [msg];
      ghost var was := current;
      if current != [] {
        OneChannel(current, gap, |current| - 1);
        if current[0].channelId != msg.channelId || msg.time - current[|current| - 1].time > gap {
          FlatAppend(done, current);
          ConversationsGrow(done, current, gap);
          done, current := done + [current], [];
          NoConversation(gap);
        }
      }
      ConversationGrows(current, msg, gap);
      if current != [] && done != [] { BrokenEnds(done[|done| - 1], current, done[|done| - 1], current + [msg], gap); }
      current := current + [msg];
    }
    assert messages[..|messages|] == messages;
    FlatAppend(done, current);
    ConversationsGrow(done, current, gap);
    chunks := done + [current];
    ConversationParts(chunks, gap);
  }

  lemma NoConversation(gap: int)
    ensures Conversation([], gap) && Conversations([], gap)
  {
  }

  lemma ConversationParts(chunks: seq<Chunk>, gap: int)
    requires Conversations(chunks, gap)
    ensures forall i :: 0 <= i < |chunks| ==> chunks[i] != [] && Conversation(chunks[i], gap)
  {
  }

  // -- the token cap --

  /** `_estimate_tokens` */
  function Tokens(c: Chunk): nat { |Format(c)| / 4 }

  /** Within the cap, or a message that cannot be divided. */
  predicate Fits(c: Chunk, cap: int) { |c| == 1 || Tokens(c) <= cap }

  /** Every piece fits and would not have taken the next message too. */
  predicate Greedy(pieces: seq<Chunk>, cap: int) {
    && (forall i :: 0 <= i < |pieces| ==> pieces[i] != [] && Fits(pieces[i], cap))
    && (forall i :: 0 <= i < |pieces| - 1 ==> Full(pieces[i], pieces[i + 1], cap))
  }

  /** The first piece had no room for the message after it. */
  predicate Full(a: Chunk, b: Chunk, cap: int) { b != [] && Tokens(a + b[..1]) > cap }

  lemma GreedyGrows(splits: seq<Chunk>, current: Chunk, cap: int)
    requires Greedy(splits, cap) && current != [] && Fits(current, cap)
    requires splits != [] ==> Full(splits[|splits| - 1], current, cap)
    ensures Greedy(splits + [current], cap)
  {
    hide Full, Fits;
  }

  /** `_split_chunk` */
  method SplitChunk(chunk: Chunk, cap: int) returns (splits: seq<Chunk>)
    ensures Division(splits, chunk) && Greedy(splits, cap)
  {
    hide Tokens, Greedy, Flat;
    splits := [];
    NothingFlat();
    var current: Chunk := [];
    EmptyIsGreedy(cap);
    for i := 0 to |chunk|
      invariant (i == 0) == (current == [])
      invariant i == 0 ==> splits == []
      invariant Flat(splits) + current == chunk[..i]
      invariant Greedy(splits, cap) && (current != [] ==> Fits(current, cap))
      invariant splits != [] ==> Full(splits[|splits| - 1], current, cap)
    {
      var msg := chunk[i];
      assert chunk[..i + 1] == chunk[..i] + [msg];
      if Tokens(current + [msg]) > cap && current != [] {
        FlatAppend(splits, current);
        GreedyGrows(splits, current, cap);
        splits, current := splits + [current], [];
        assert ([] + [msg])[..1] == [msg] && Flat(splits) + [] == Flat(splits);
      }
      assert current != [] ==> (current + [msg])[..1] == current[..1];
      assert Flat(splits) + current == chunk[..i];
      assert Flat(splits) + (current + [msg]) == Flat(splits) + current + [msg];
      current := current + [msg];
    }
    assert chunk[..|chunk|] == chunk;
    if current != [] {
      FlatAppend(splits, current);
      GreedyGrows(splits, current, cap);
      splits := splits + [current];
    }
    GreedyParts(splits, cap);
  }

  lemma NothingFlat()
    ensures Flat([]) == []
  {
  }

  lemma EmptyIsGreedy(cap: int)
    ensures Greedy([], cap)
  {
  }

  lemma GreedyParts(pieces: seq<Chunk>, cap: int)
    requires Greedy(pieces, cap)
    ensures forall i :: 0 <= i < |pieces| ==> pieces[i] != [] && Fits(pieces[i], cap)
    ensures forall i :: 0 <= i < |pieces| - 1 ==> Full(pieces[i], pieces[i + 1], cap)
  {
  }

  /** What every boundary between two chunks is there for. */
  predicate Forced(a: Chunk, b: Chunk, gap: int, cap: int) {
    Broken(a, b, gap) || Full(a, b, cap)
  }

  /** One-channel chunks with every gap within the limit, each in the cap or one message, every boundary forced. */
  predicate Chunked(chunks: seq<Chunk>, gap: int, cap: int) {
    && (forall i :: 0 <= i < |chunks| ==> chunks[i] != [] && Conversation(chunks[i], gap) && Fits(chunks[i], cap))
    && (forall i :: 0 <= i < |chunks| - 1 ==> Forced(chunks[i], chunks[i + 1], gap, cap))
  }

  lemma {:induction false} PieceIsConversation(pieces: seq<Chunk>, c: Chunk, gap: int, i: nat)
    requires Flat(pieces) == c && Conversation(c, gap) && i < |pieces|
    ensures Conversation(pieces[i], gap)
  {
    var head, rest := pieces[0], Flat(pieces[1..]);
    assert c == head + rest;
    forall k | 0 <= k < |head| - 1 ensures Continues(head[k], head[k + 1], gap) {
      assert c[k] == head[k] && c[k + 1] == head[k + 1];
    }
    forall k | 0 <= k < |rest| - 1 ensures Continues(rest[k], rest[k + 1], gap) {
      assert c[|head| + k] == rest[k] && c[|head| + k + 1] == rest[k + 1];
    }
    if i > 0 { PieceIsConversation(pieces[1..], rest, gap, i - 1); }
  }

  lemma {:induction false} FlatEnds(pieces: seq<Chunk>)
    requires pieces != [] && forall i :: 0 <= i < |pieces| ==> pieces[i] != []
    ensures Flat(pieces) != [] && Flat(pieces)[0] == pieces[0][0]
    ensures Flat(pieces)[|Flat(pieces)| - 1] == pieces[|pieces| - 1][|pieces[|pieces| - 1]| - 1]
  {
    if |pieces| > 1 {
      FlatEnds(pieces[1..]);
    } else {
      assert Flat(pieces) == pieces[0] + Flat([]);
    }
  }

  lemma {:induction false} PiecesAreChunked(pieces: seq<Chunk>, c: Chunk, gap: int, cap: int)
    requires Division(pieces, c) && Greedy(pieces, cap) && Conversation(c, gap)
    ensures Chunked(pieces, gap, cap)
  {
    hide Tokens, Conversation, Full, Fits;
    forall i | 0 <= i < |pieces| ensures Conversation(pieces[i], gap) { PieceIsConversation(pieces, c, gap, i); }
  }

  lemma ChunkedGrow(chunks: seq<Chunk>, pieces: seq<Chunk>, gap: int, cap: int)
    requires Chunked(chunks, gap, cap) && Chunked(pieces, gap, cap) && pieces != []
    requires chunks != [] ==> Broken(chunks[|chunks| - 1], pieces[0], gap)
    ensures Chunked(chunks + pieces, gap, cap)
  {
    hide Conversation, Fits, Broken, Full;
  }

  lemma NextBreak(groups: seq<Chunk>, g: nat, chunks: seq<Chunk>, pieces: seq<Chunk>, gap: int)
    requires Conversations(groups, gap) && 0 < g < |groups| && chunks != [] && pieces != []
    requires forall i :: 0 <= i < |pieces| ==> pieces[i] != []
    requires Flat(pieces) == groups[g] && chunks[|chunks| - 1] != [] && groups[g - 1] != []
    requires LastOf(chunks[|chunks| - 1]) == LastOf(groups[g - 1])
    ensures Broken(chunks[|chunks| - 1], pieces[0], gap)
  {
    FlatEnds(pieces);
    assert Broken(groups[g - 1], groups[g - 1 + 1], gap);
    BrokenEnds(groups[g - 1], groups[g], chunks[|chunks| - 1], pieces[0], gap);
  }

  lemma ChunkedParts(chunks: seq<Chunk>, gap: int, cap: int)
    requires Chunked(chunks, gap, cap)
    ensures forall i :: 0 <= i < |chunks| ==> chunks[i] != []
  {
  }

  /** A conversation within the cap stays whole. */
  method Pieces(chunk: Chunk, cap: int) returns (pieces: seq<Chunk>)
    requires chunk != []
    ensures Division(pieces, chunk) && Greedy(pieces, cap) && pieces != []
  {
    hide Tokens, Greedy;
    FlatAppend([], chunk);
    assert [] + [chunk] == [chunk];
    if Tokens(chunk) <= cap {
      EmptyIsGreedy(cap);
      GreedyGrows([], chunk, cap);
      return [chunk];
    }
    pieces := SplitChunk(chunk, cap);
  }

  /** `chunk_by_conversation` */
  method ChunkByConversation(messages: Chunk, gap: int, cap: int) returns (chunks: seq<Chunk>)
    ensures Division(chunks, messages) && Chunked(chunks, gap, cap)
  {
    hide Tokens, Conversation, Conversations, Chunked, Greedy, Broken, Forced;
    chunks := [];
    NothingChunked(gap, cap);
    if messages == [] { return; }
    var groups := Group(messages, gap);
    ConversationParts(groups, gap);
    for g := 0 to |groups|
      invariant Flat(chunks) == Flat(groups[..g])
      invariant (g == 0) == (chunks == [])
      invariant Chunked(chunks, gap, cap)
      invariant g > 0 ==> chunks[|chunks| - 1] != [] && LastOf(chunks[|chunks| - 1]) == LastOf(groups[g - 1])
    {
      var chunk := groups[g];
      var pieces := Pieces(chunk, cap);
      PiecesAreChunked(pieces, chunk, gap, cap);
      FlatEnds(pieces);
      assert groups[..g + 1] == groups[..g] + [chunk];
      FlatConcat(chunks, pieces);
      FlatAppend(groups[..g], chunk);
      if g > 0 { NextBreak(groups, g, chunks, pieces, gap); }
      ChunkedGrow(chunks, pieces, gap, cap);
      chunks := chunks + pieces;
    }
    assert groups[..|groups|] == groups;
    ChunkedParts(chunks, gap, cap);
  }

  lemma NothingChunked(gap: int, cap: int)
    ensures Chunked([], gap, cap)
  {
  }

  // -- the greedy split is optimal --

  /** Starting at `b` instead of at `a` does not make the printed chunk longer. */
  predicate Steady(a: Message, b: Message) {
    |Header([b])| <= |Header([a])| + |Line(a)| + 1
  }

  predicate AllSteady(c: Chunk) { forall i :: 0 <= i < |c| - 1 ==> Steady(c[i], c[i + 1]) }

  lemma SteadySuffix(c: Chunk, n: nat)
    requires n <= |c| && AllSteady(c)
    ensures AllSteady(c[n..])
  {
    var d := c[n..];
    forall i | 0 <= i < |d| - 1 ensures Steady(d[i], d[i + 1]) {
      assert Steady(c[n + i], c[n + i + 1]);
    }
  }

  function LinesLength(c: Chunk): nat {
    if c == [] then 0 else |Line(c[0])| + 1 + LinesLength(c[1..])
  }

  lemma {:induction false} JoinLength(lines: seq<string>, c: Chunk)
    requires lines == Lines(c) && c != []
    ensures |JoinLines(lines)| + 1 == LinesLength(c)
  {
    LinesUnfold(c);
    if |c| > 1 { JoinLength(Lines(c[1..]), c[1..]); } else { assert c[1..] == []; }
  }

  /** A chunk prints as its header and its lines, each line but the last followed by a newline. */
  lemma FormatLength(c: Chunk)
    requires c != []
    ensures |Format(c)| == |Header([c[0]])| + LinesLength(c)
  {
    FormatUnfold(c);
    JoinLength(Lines(c), c);
    assert Header([c[0]]) == Header(c);
  }

  lemma {:induction false} LinesLengthConcat(a: Chunk, b: Chunk)
    ensures LinesLength(a + b) == LinesLength(a) + LinesLength(b)
  {
    if a == [] {
      assert a + b == b;
    } else {
      assert (a + b)[1..] == a[1..] + b;
      LinesLengthConcat(a[1..], b);
    }
  }

  /** A prefix of a chunk takes no more tokens. */
  lemma PrefixTokens(c: Chunk, n: nat)
    requires 0 < n <= |c|
    ensures Tokens(c[..n]) <= Tokens(c)
  {
    hide Format, Header, LinesLength;
    assert c == c[..n] + c[n..];
    LinesLengthConcat(c[..n], c[n..]);
    FormatLength(c);
    FormatLength(c[..n]);
    assert c[..n][0] == c[0];
  }

  /** With the same messages to start from, no chunk is longer than a forced one. */
  lemma ForcedIsLongest(xs: seq<Chunk>, ys: seq<Chunk>, messages: Chunk, gap: int, cap: int)
    requires Division(xs, messages) && Chunked(xs, gap, cap) && messages != []
    requires Division(ys, messages) && Chunked(ys, gap, cap)
    ensures xs != [] && ys != [] && |ys[0]| <= |xs[0]|
  {
    hide Tokens;
    DivisionTail(xs, messages);
    DivisionTail(ys, messages);
    var x, y := xs[0], ys[0];
    if |x| < |y| {
      DivisionTail(xs[1..], messages[|x|..]);
      assert Forced(xs[0], xs[0 + 1], gap, cap);
      var n := |x| + 1;
      assert xs[1][0] == y[n - 1] && x[n - 2] == y[n - 2];
      assert Conversation(y, gap) && Continues(y[n - 2], y[n - 2 + 1], gap);
      assert x + xs[1][..1] == y[..n];
      PrefixTokens(y, n);
      assert false;
    }
  }

  /** The messages, the gap and the cap leave only one way to chunk. */
  lemma {:induction false} ChunkingIsDetermined(xs: seq<Chunk>, ys: seq<Chunk>, messages: Chunk, gap: int, cap: int)
    requires Division(xs, messages) && Chunked(xs, gap, cap)
    requires Division(ys, messages) && Chunked(ys, gap, cap)
    ensures xs == ys
    decreases |xs|
  {
    hide Tokens, Conversation, Forced;
    if messages == [] {
      if xs != [] { FlatEnds(xs); }
      if ys != [] { FlatEnds(ys); }
    } else {
      ForcedIsLongest(xs, ys, messages, gap, cap);
      ForcedIsLongest(ys, xs, messages, gap, cap);
      DivisionTail(xs, messages);
      DivisionTail(ys, messages);
      ChunkingTail(xs, gap, cap);
      ChunkingTail(ys, gap, cap);
      ChunkingIsDetermined(xs[1..], ys[1..], messages[|xs[0]|..], gap, cap);
      assert xs == [xs[0]] + xs[1..] && ys == [ys[0]] + ys[1..];
    }
  }

  lemma ChunkingTail(xs: seq<Chunk>, gap: int, cap: int)
    requires Chunked(xs, gap, cap) && xs != []
    ensures Chunked(xs[1..], gap, cap)
  {
    hide Tokens, Conversation, Forced, Fits;
    forall i | 0 <= i < |xs[1..]| - 1 ensures Forced(xs[1..][i], xs[1..][i + 1], gap, cap) {
      assert Forced(xs[i + 1], xs[i + 1 + 1], gap, cap);
    }
  }

  /** Neither does a suffix, when headers are steady. */
  lemma {:induction false} SuffixTokens(c: Chunk, n: nat)
    requires n < |c| && AllSteady(c)
    ensures Tokens(c[n..]) <= Tokens(c)
    decreases n
  {
    hide Format, Header, Line;
    if n > 0 {
      var d := c[1..];
      assert Steady(c[0], c[0 + 1]);
      FormatLength(c);
      FormatLength(d);
      SteadySuffix(c, 1);
      SuffixTokens(d, n - 1);
      assert d[n - 1..] == c[n..];
    }
  }

  predicate FitDivision(pieces: seq<Chunk>, messages: Chunk, cap: int) {
    Division(pieces, messages) && forall i :: 0 <= i < |pieces| ==> Fits(pieces[i], cap)
  }

  lemma SteadyPrefix(c: Chunk, n: nat)
    requires n <= |c| && AllSteady(c)
    ensures AllSteady(c[..n])
  {
    forall i | 0 <= i < |c[..n]| - 1 ensures Steady(c[..n][i], c[..n][i + 1]) {
      assert Steady(c[i], c[i + 1]);
    }
  }

  /** What is left of a fitting division once the first messages are gone is one too, with no more pieces. */
  lemma {:induction false} Trim(pieces: seq<Chunk>, messages: Chunk, n: nat, cap: int) returns (left: seq<Chunk>)
    requires FitDivision(pieces, messages, cap) && n <= |messages| && AllSteady(messages)
    ensures FitDivision(left, messages[n..], cap) && |left| <= |pieces|
    decreases |pieces|
  {
    hide Tokens, Steady;
    if n == 0 { assert messages[n..] == messages; return pieces; }
    DivisionTail(pieces, messages);
    var head, rest := pieces[0], pieces[1..];
    SteadySuffix(messages, |head|);
    SteadyPrefix(messages, |head|);
    if n < |head| {
      left := [head[n..]] + rest;
      assert left[1..] == rest && Flat(left) == head[n..] + Flat(rest);
      assert messages == head + Flat(rest);
      if |head| > 1 { SuffixTokens(head, n); }
    } else {
      left := Trim(rest, messages[|head|..], n - |head|, cap);
      assert messages[|head|..][n - |head|..] == messages[n..];
    }
  }

  /** No fitting division's first piece is longer than the greedy one. */
  lemma GreedyIsAhead(greedy: seq<Chunk>, other: seq<Chunk>, messages: Chunk, cap: int)
    requires Division(greedy, messages) && Greedy(greedy, cap)
    requires FitDivision(other, messages, cap) && messages != []
    ensures greedy != [] && other != [] && |other[0]| <= |greedy[0]|
  {
    hide Tokens;
    DivisionTail(greedy, messages);
    DivisionTail(other, messages);
    var g, o := greedy[0], other[0];
    if |g| < |o| {
      var rest := messages[|g|..];
      DivisionTail(greedy[1..], rest);
      assert Full(greedy[0], greedy[0 + 1], cap);
      var n := |g| + 1;
      assert greedy[1][..1] == rest[..1];
      assert g + greedy[1][..1] == messages[..n] == o[..n];
      PrefixTokens(o, n);
      assert false;
    }
  }

  /**
    The greedy split is optimal: no order-preserving division into pieces that each
    fit the cap or are a single message uses fewer pieces.
  */
  lemma {:induction false} GreedyIsOptimal(greedy: seq<Chunk>, other: seq<Chunk>, messages: Chunk, cap: int)
    requires Division(greedy, messages) && Greedy(greedy, cap)
    requires FitDivision(other, messages, cap) && AllSteady(messages)
    ensures |greedy| <= |other|
    decreases |greedy|
  {
    hide Tokens, Steady;
    if messages == [] {
      if greedy != [] { FlatEnds(greedy); }
    } else {
      GreedyIsAhead(greedy, other, messages, cap);
      DivisionTail(greedy, messages);
      DivisionTail(other, messages);
      var g, o := |greedy[0]|, |other[0]|;
      SteadySuffix(messages, o);
      SteadySuffix(messages, g);
      var left := Trim(other[1..], messages[o..], g - o, cap);
      assert messages[o..][g - o..] == messages[g..];
      forall i | 0 <= i < |greedy[1..]| - 1 ensures Full(greedy[1..][i], greedy[1..][i + 1], cap) {
        assert Full(greedy[i + 1], greedy[i + 1 + 1], cap);
      }
      GreedyIsOptimal(greedy[1..], left, messages[g..], cap);
    }
  }

  function Filler(m: Message, n: nat): Message { m.(user := "u", caption := "", content := seq(n, i => 'x')) }

  lemma FillerLength(m: Message, n: nat)
    ensures |Line(Filler(m, n))| == n + 3 && Header([Filler(m, n)]) == Header([m])
  {
  }

  lemma FormatLengths(c: Chunk)
    requires c != []
    ensures |c| == 1 ==> |Format(c)| == |Header([c[0]])| + |Line(c[0])| + 1
    ensures |c| == 2 ==> |Format(c)| == |Header([c[0]])| + |Line(c[0])| + |Line(c[1])| + 2
    ensures |c| == 3 ==> |Format(c)| == |Header([c[0]])| + |Line(c[0])| + |Line(c[1])| + |Line(c[2])| + 3
  {
    hide Format, Header, Line;
    FormatLength(c);
    assert LinesLength(c) == |Line(c[0])| + 1 + LinesLength(c[1..]);
    if |c| > 1 { assert LinesLength(c[1..]) == |Line(c[1])| + 1 + LinesLength(c[1..][1..]); }
    if |c| > 2 { assert LinesLength(c[2..]) == |Line(c[2])| + 1 + LinesLength(c[2..][1..]) && c[1..][1..] == c[2..]; }
  }

  /**
    Steady headers are needed: wherever a header grows by more than the line before
    it, as a channel rename can make it, some chunk holding those two messages is
    split into three pieces where two would fit.
  */
  lemma RenameBreaksOptimality(a: Message, b: Message)
    returns (messages: Chunk, greedy: seq<Chunk>, better: seq<Chunk>, cap: nat)
    requires !Steady(a, b)
    ensures |messages| == 4 && messages[1..3] == [a, b] && Steady(messages[0], a) && Steady(b, messages[3])
    ensures Division(greedy, messages) && Greedy(greedy, cap)
    ensures FitDivision(better, messages, cap) && |better| == 2 && |greedy| == 3
  {
    hide Format, Header, Line, Filler;
    var h, la, lb := |Header([a])|, |Line(a)|, |Line(b)|;
    cap := h + la + lb + 3;
    var n, k := 4 * cap - h - la - 2, 4 * cap - h - la - lb - 3;
    FillerLength(a, n);
    FillerLength(b, k);
    var x, z := Filler(a, n), Filler(b, k);
    messages := [x, a, b, z];
    greedy, better := [[x, a], [b], [z]], [[x], [a, b, z]];
    FlatThree([x, a], [b], [z]);
    FlatTwo([x], [a, b, z]);
    FormatLengths([x, a]);
    FormatLengths([x, a, b]);
    FormatLengths([b, z]);
    FormatLengths([a, b, z]);
    assert [x, a] + [b][..1] == [x, a, b] && [b] + [z][..1] == [b, z];
  }

  /** In every chunk where `b` follows `a` and all other neighbours are steady, no division beats the greedy one. */
  ghost predicate GreedyBestAround(a: Message, b: Message) {
    forall messages, k: nat, cap, greedy, other ::
      SteadyBut(messages, k) && k + 1 < |messages| && messages[k] == a && messages[k + 1] == b
      && Division(greedy, messages) && Greedy(greedy, cap) && FitDivision(other, messages, cap)
      ==> |greedy| <= |other|
  }

  predicate SteadyBut(messages: Chunk, k: nat) {
    forall i :: 0 <= i < |messages| - 1 && i != k ==> Steady(messages[i], messages[i + 1])
  }

  /**
    The greedy split is optimal around two neighbours exactly when the header does not
    outgrow the line dropped before it.
  */
  lemma GreedyIsOptimalIff(a: Message, b: Message)
    ensures GreedyBestAround(a, b) <==> Steady(a, b)
  {
    hide Steady, Division, Greedy, FitDivision;
    if Steady(a, b) {
      forall messages, k: nat, cap, greedy, other |
        SteadyBut(messages, k) && k + 1 < |messages| && messages[k] == a && messages[k + 1] == b
        && Division(greedy, messages) && Greedy(greedy, cap) && FitDivision(other, messages, cap)
        ensures |greedy| <= |other|
      {
        GreedyIsOptimal(greedy, other, messages, cap);
      }
    } else {
      var messages, greedy, better, cap := RenameBreaksOptimality(a, b);
      assert messages[1..3][0] == messages[1] && messages[1..3][1] == messages[2];
      assert SteadyBut(messages, 1);
    }
  }

  lemma FlatTwo(a: Chunk, b: Chunk)
    ensures Flat([a, b]) == a + b
  {
    FlatAppend([a], b);
    FlatAppend([], a);
    assert [a] + [b] == [a, b] && [] + [a] == [a];
  }

  lemma FlatThree(a: Chunk, b: Chunk, c: Chunk)
    ensures Flat([a, b, c]) == a + b + c
  {
    FlatTwo(a, b);
    FlatAppend([a, b], c);
    assert [a, b] + [c] == [a, b, c];
  }
}
