/**
  Deduplicating tool results as they arrive, and rendering them as labelled
  blocks. chunk_key is taken as injective: an excerpt is its own key.
*/
module Research {
  import opened Wrappers
  import opened Excerpts

  const NOTE_PREFIX := "[Search note]"

  function Decimal(n: nat): (s: string)
    ensures s != "" && forall i :: 0 <= i < |s| ==> '0' <= s[i] <= '9'
  {
    var d := [('0' as int + n % 10) as char];
    if n < 10 then d else Decimal(n / 10) + d
  }

  predicate IsNote(chunk: string) { NOTE_PREFIX <= chunk }

  // The notes' advice to the model is cut short: only the prefix and the counts matter here.
  const NOTHING_NEW_TAIL := " excerpt(s) were already shown."
  const OMITTED_TAIL := " excerpt(s) omitted."

  function CondensedContent(n: nat, scope: string, summary: string): string {
    "[Condensed research " + Decimal(n) + "] " + scope + ", summarised to save context\n" + summary
  }

  function NothingNew(total: nat): string { NOTE_PREFIX + " All " + Decimal(total) + NOTHING_NEW_TAIL }

  function SomeOmitted(dropped: nat, total: nat): string {
    NOTE_PREFIX + " " + Decimal(dropped) + " of " + Decimal(total) + OMITTED_TAIL
  }

  /** An excerpt fit to be joined, split again and told apart from a note. */
  predicate Excerpt(c: string) { Piece(c) && !EndsOpen(c) && !IsNote(c) }

  predicate AllExcerpts(cs: seq<string>) { forall i :: 0 <= i < |cs| ==> Excerpt(cs[i]) }

  predicate NoteText(s: string) { Piece(s) && IsNote(s) }

  lemma {:induction false} NotesAreNotes(dropped: nat, total: nat)
    ensures NoteText(NothingNew(total)) && NoteText(SomeOmitted(dropped, total))
  {
    var d, t := Decimal(dropped), Decimal(total);
    hide Decimal;
    assert '\n' !in d && '\n' !in t;
    assert '\n' !in NOTE_PREFIX;
    assert '\n' !in NOTHING_NEW_TAIL;
    assert '\n' !in OMITTED_TAIL;
    assert '\n' !in NothingNew(total);
    assert '\n' !in NOTE_PREFIX + " " && '\n' !in NOTE_PREFIX + " " + d && '\n' !in NOTE_PREFIX + " " + d + " of ";
    assert '\n' !in SomeOmitted(dropped, total);
    NewlineFreeHasNoSeparator(NothingNew(total));
    NewlineFreeHasNoSeparator(SomeOmitted(dropped, total));
  }

  /** The chunks not yet in `seen`, first occurrences only, in order. */
  function Fresh(chunks: seq<string>, seen: set<string>): seq<string> {
    if chunks == [] then []
    else if chunks[0] in seen then Fresh(chunks[1..], seen)
    else [chunks[0]] + Fresh(chunks[1..], seen + {chunks[0]})
  }

  function Members(chunks: seq<string>): set<string> { set c | c in chunks }

  lemma MembersConcat(a: seq<string>, b: seq<string>)
    ensures Members(a + b) == Members(a) + Members(b)
  {
  }

  /** The text `drop_seen_chunks` puts into the conversation for a result. */
  function Dropped(result: string, seen: set<string>): string {
    var chunks := SplitChunks(result);
    var kept := Fresh(chunks, seen);
    if |kept| == |chunks| then result
    else if kept == [] then NothingNew(|chunks|)
    else if |kept| < |chunks| then Join(kept + [SomeOmitted(|chunks| - |kept|, |chunks|)])
    else result
  }

  /** The excerpts of a result as the rest of the code reads them: notes left out. */
  function Excerpted(chunks: seq<string>): seq<string> {
    if chunks == [] then []
    else (if IsNote(chunks[0]) then [] else [chunks[0]]) + Excerpted(chunks[1..])
  }

  lemma {:induction false} FreshFacts(chunks: seq<string>, seen: set<string>)
    ensures |Fresh(chunks, seen)| <= |chunks|
    ensures |Fresh(chunks, seen)| == |chunks| ==> Fresh(chunks, seen) == chunks
    ensures Members(Fresh(chunks, seen)) == Members(chunks) - seen
    ensures forall i, j :: 0 <= i < j < |Fresh(chunks, seen)| ==> Fresh(chunks, seen)[i] != Fresh(chunks, seen)[j]
  {
    var kept := Fresh(chunks, seen);
    if chunks != [] {
      var c := chunks[0];
      assert Members(chunks) == {c} + Members(chunks[1..]);
      if c in seen {
        FreshFacts(chunks[1..], seen);
      } else {
        var rest := Fresh(chunks[1..], seen + {c});
        FreshFacts(chunks[1..], seen + {c});
        assert kept == [c] + rest;
        assert Members(kept) == {c} + Members(rest);
        assert c !in Members(rest);
        assert forall i :: 0 <= i < |rest| ==> rest[i] in Members(rest);
        assert chunks == [c] + chunks[1..];
      }
    }
  }

  lemma {:induction false} ResearchOfExcerpts(cs: seq<string>)
    requires AllExcerpts(cs)
    ensures Excerpted(cs) == cs
  {
    if cs != [] { ResearchOfExcerpts(cs[1..]); }
  }

  lemma {:induction false} ResearchDropsNote(cs: seq<string>, note: string)
    requires AllExcerpts(cs) && IsNote(note)
    ensures Excerpted(cs + [note]) == cs
  {
    if cs == [] {
      assert [note][1..] == [];
    } else {
      assert (cs + [note])[1..] == cs[1..] + [note];
      ResearchDropsNote(cs[1..], note);
    }
  }

  lemma SplitWithNote(cs: seq<string>, note: string)
    requires AllExcerpts(cs) && NoteText(note)
    ensures SplitChunks(Join(cs + [note])) == cs + [note]
  {
    SplitJoin(cs + [note]);
  }

  lemma {:induction false} SplitExcerpts(cs: seq<string>)
    requires AllExcerpts(cs)
    ensures SplitChunks(Join(cs)) == cs
  {
    SplitJoin(cs);
  }

  lemma JoinOne(c: string)
    ensures Join([c]) == c
  {
  }

  /** What enters the conversation reads back as exactly the excerpts that were new. */
  lemma {:induction false} DroppedHoldsTheFresh(cs: seq<string>, seen: set<string>)
    requires AllExcerpts(cs)
    ensures Excerpted(SplitChunks(Dropped(Join(cs), seen))) == Fresh(cs, seen)
    ensures AllExcerpts(Fresh(cs, seen))
    ensures Strip(Dropped(Join(cs), seen)) == Dropped(Join(cs), seen)
  {
    hide SplitChunks, NothingNew, SomeOmitted, Strip, Join, Excerpted, EndsOpen, NoSeparator, IsNote, Stripped;
    var kept := Fresh(cs, seen);
    SplitExcerpts(cs);
    FreshFacts(cs, seen);
    assert AllExcerpts(kept) by { assert forall i :: 0 <= i < |kept| ==> kept[i] in Members(kept); }
    if |kept| == |cs| {
      ResearchOfExcerpts(cs);
      JoinStripFixed(cs);
    } else if kept == [] {
      var note := NothingNew(|cs|);
      NotesAreNotes(0, |cs|);
      SplitWithNote([], note);
      ResearchDropsNote([], note);
      assert [] + [note] == [note];
      JoinOne(note);
      StripFixes(note);
    } else {
      var note := SomeOmitted(|cs| - |kept|, |cs|);
      NotesAreNotes(|cs| - |kept|, |cs|);
      SplitWithNote(kept, note);
      ResearchDropsNote(kept, note);
      JoinStripFixed(kept + [note]);
    }
  }

  lemma {:induction false} JoinStripFixed(cs: seq<string>)
    requires forall i :: 0 <= i < |cs| ==> Stripped(cs[i])
    ensures Strip(Join(cs)) == Join(cs)
  {
    if cs != [] {
      JoinIsStripped(cs);
      StripFixes(Join(cs));
    }
  }

  /** `drop_seen_chunks`, with the caller's set updated in place. */
  class KeySet {
    var keys: set<string>

    constructor (keys: set<string>)
      ensures this.keys == keys
    { this.keys := keys; }

    method DropSeenChunks(result: string) returns (out: string)
      modifies this
      ensures out == Dropped(result, old(keys))
      ensures keys == old(keys) + Members(SplitChunks(result))
    {
      hide SplitChunks, NothingNew, SomeOmitted, Join;
      var chunks := SplitChunks(result);
      var kept: seq<string> := [];
      var i := 0;
      while i < |chunks|
        invariant 0 <= i <= |chunks|
        invariant keys == old(keys) + Members(chunks[..i])
        invariant kept + Fresh(chunks[i..], keys) == Fresh(chunks, old(keys))
        invariant |kept| <= i
      {
        var chunk := chunks[i];
        assert chunks[i..][1..] == chunks[i + 1..];
        assert Members(chunks[..i + 1]) == Members(chunks[..i]) + {chunk};
        if chunk !in keys {
          ghost var later := Fresh(chunks[i + 1..], keys + {chunk});
          assert kept + ([chunk] + later) == kept + [chunk] + later;
          keys := keys + {chunk};
          kept := kept + [chunk];
        }
        i := i + 1;
      }
      assert chunks[..i] == chunks && Fresh(chunks[i..], keys) == [];
      assert kept == Fresh(chunks, old(keys));
      FreshFacts(chunks, old(keys));
      var dropped := |chunks| - |kept|;
      if dropped == 0 { return result; }
      if kept == [] { return NothingNew(|chunks|); }
      out := Join(kept + [SomeOmitted(dropped, |chunks|)]);
    }
  }

  // -- rendering --

  /**
    What render_research_blocks looks at in a message: a condensed summary, a tool result
    with its label, or neither.
  */
  datatype Item = Condensed(text: string) | Result(query: string, content: string) | Other

  datatype Block = Summary(text: string) | Search(number: nat, query: string, body: string)

  /** One message: the block it adds, if any, and the keys seen afterwards. */
  function RenderOne(m: Item, keys: set<string>, number: nat): (Option<Block>, set<string>) {
    match m
    case Condensed(text) => (Some(Summary(text)), keys)
    case Other => (None, keys)
    case Result(query, content) =>
      var found := Excerpted(SplitChunks(Strip(content)));
      var kept := Fresh(found, keys);
      (if kept == [] then None else Some(Search(number, query, Join(kept))), keys + Members(found))
  }

  function Render(items: seq<Item>, keys: set<string>, number: nat): (seq<Block>, set<string>) {
    if items == [] then ([], keys)
    else
      var (block, seen) := RenderOne(items[0], keys, number);
      var (blocks, final) := Render(items[1..], seen, if block.Some? then number + 1 else number);
      (if block.Some? then [block.value] + blocks else blocks, final)
  }

  lemma {:induction false} RenderConcat(a: seq<Item>, b: seq<Item>, keys: set<string>, number: nat)
    ensures var (blocks, seen) := Render(a, keys, number);
      var (more, final) := Render(b, seen, number + |blocks|);
      Render(a + b, keys, number) == (blocks + more, final)
    decreases |a|
  {
    hide RenderOne;
    if a == [] {
      assert a + b == b && [] + Render(b, keys, number).0 == Render(b, keys, number).0;
    } else {
      assert (a + b)[1..] == a[1..] + b;
      var (block, seen) := RenderOne(a[0], keys, number);
      var next := if block.Some? then number + 1 else number;
      RenderConcat(a[1..], b, seen, next);
      var rest := Render(a[1..], seen, next);
      var more := Render(b, rest.1, next + |rest.0|);
      if block.Some? { assert [block.value] + (rest.0 + more.0) == [block.value] + rest.0 + more.0; }
    }
  }

  lemma RenderOnly(m: Item, keys: set<string>, number: nat)
    ensures var one := RenderOne(m, keys, number);
      Render([m], keys, number) == (if one.0.Some? then [one.0.value] else [], one.1)
  {
    hide RenderOne;
    assert [m][1..] == [];
    var one := RenderOne(m, keys, number);
    var next := if one.0.Some? then number + 1 else number;
    assert Render([], one.1, next) == ([], one.1);
    if one.0.Some? { assert [one.0.value] + [] == [one.0.value]; }
  }

  /** The loop over one result's excerpts: notes skipped, seen ones skipped, the rest kept and remembered. */
  method TakeFresh(chunks: seq<string>, keys: set<string>) returns (kept: seq<string>, keys': set<string>)
    ensures kept == Fresh(Excerpted(chunks), keys) && keys' == keys + Members(Excerpted(chunks))
  {
    hide IsNote, Fresh, Excerpted, Members;
    kept, keys' := [], keys;
    ghost var found := Excerpted(chunks);
    var i := 0;
    assert chunks[0..] == chunks;
    while i < |chunks|
      invariant 0 <= i <= |chunks|
      invariant kept + Fresh(Excerpted(chunks[i..]), keys') == Fresh(found, keys)
      invariant keys' + Members(Excerpted(chunks[i..])) == keys + Members(found)
    {
      var chunk := chunks[i];
      TakeOne(chunks, i, keys');
      if !IsNote(chunk) && chunk !in keys' {
        keys', kept := keys' + {chunk}, kept + [chunk];
      }
      i := i + 1;
    }
    TakeNone(keys');
    assert chunks[i..] == [] && keys' + {} == keys' && kept + [] == kept;
  }

  lemma TakeOne(chunks: seq<string>, i: nat, keys: set<string>)
    requires i < |chunks|
    ensures var chunk, now, later := chunks[i], Excerpted(chunks[i..]), Excerpted(chunks[i + 1..]);
      if IsNote(chunk) then now == later
      else if chunk in keys then Fresh(now, keys) == Fresh(later, keys) && keys + Members(now) == keys + Members(later)
      else (Fresh(now, keys) == [chunk] + Fresh(later, keys + {chunk})
            && keys + Members(now) == keys + {chunk} + Members(later))
  {
    hide IsNote;
    var chunk, later := chunks[i], Excerpted(chunks[i + 1..]);
    assert chunks[i..][0] == chunk && chunks[i..][1..] == chunks[i + 1..];
    assert ([chunk] + later)[1..] == later && Members([chunk] + later) == {chunk} + Members(later);
    assert [] + later == later;
  }

  lemma TakeNone(keys: set<string>)
    ensures Fresh(Excerpted([]), keys) == [] && Members(Excerpted([])) == {}
  {
  }

  /** `render_research_blocks` over the messages it looks at, numbering from `start` + 1. */
  method RenderResearchBlocks(items: seq<Item>, seen: KeySet, start: nat) returns (blocks: seq<Block>)
    modifies seen
    ensures (blocks, seen.keys) == Render(items, old(seen.keys), start + 1)
  {
    hide SplitChunks, Strip, Fresh, Excerpted, Join, RenderOne;
    blocks := [];
    for i := 0 to |items|
      invariant (blocks, seen.keys) == Render(items[..i], old(seen.keys), start + 1)
    {
      assert items[..i + 1] == items[..i] + [items[i]];
      RenderConcat(items[..i], [items[i]], old(seen.keys), start + 1);
      RenderOnly(items[i], seen.keys, start + 1 + |blocks|);
      var block := None;
      var keys := seen.keys;
      block, keys := RenderItem(items[i], keys, start + 1 + |blocks|);
      seen.keys := keys;
      if block.Some? { blocks := blocks + [block.value]; } else { assert blocks + [] == blocks; }
    }
    assert items[..|items|] == items;
  }

  /** One turn of the rendering loop. A blank result, like one with nothing new, adds no block. */
  method RenderItem(m: Item, keys: set<string>, number: nat) returns (block: Option<Block>, keys': set<string>)
    ensures (block, keys') == RenderOne(m, keys, number)
  {
    hide Fresh, Join, SplitChunks, Strip, Excerpted;
    match m
    case Condensed(text) => return Some(Summary(text)), keys;
    case Other => return None, keys;
    case Result(query, content) =>
      var result := Strip(content);
      BlankHasNoExcerpts(keys);
      if result == "" {
        assert keys + Members([]) == keys;
        return None, keys;
      }
      var kept;
      kept, keys' := TakeFresh(SplitChunks(result), keys);
      block := if kept == [] then None else Some(Search(number, query, Join(kept)));
  }

  lemma {:induction false} BlankHasNoExcerpts(keys: set<string>)
    ensures SplitChunks("") == [] && Excerpted(SplitChunks("")) == [] && Fresh([], keys) == []
  {
    hide SplitChunks;
    SplitEmpty();
  }

  // -- what a rendering shows --

  function BlockText(b: Block): string {
    match b
    case Summary(text) => text
    case Search(number, query, body) => "[Search " + Decimal(number) + "] " + query + "\n" + body
  }

  function BlocksText(blocks: seq<Block>): string {
    if blocks == [] then "" else if |blocks| == 1 then BlockText(blocks[0])
    else BlockText(blocks[0]) + "\n\n" + BlocksText(blocks[1..])
  }

  /** The texts under the labels of the search blocks. */
  function Bodies(blocks: seq<Block>): seq<string> {
    if blocks == [] then []
    else (if blocks[0].Search? then [blocks[0].body] else []) + Bodies(blocks[1..])
  }

  /** The new excerpts of each result that has any. */
  function Parts(items: seq<Item>, keys: set<string>): seq<seq<string>> {
    if items == [] then []
    else match items[0]
      case Result(_, content) =>
        var found := Excerpted(SplitChunks(Strip(content)));
        var novel := Fresh(found, keys);
        (if novel == [] then [] else [novel]) + Parts(items[1..], keys + Members(found))
      case _ => Parts(items[1..], keys)
  }

  function Joined(parts: seq<seq<string>>): seq<string> {
    if parts == [] then [] else [Join(parts[0])] + Joined(parts[1..])
  }

  function Concat(parts: seq<seq<string>>): seq<string> {
    if parts == [] then [] else parts[0] + Concat(parts[1..])
  }

  /** The excerpts a rendering puts into its blocks, in order. */
  function NewExcerpts(items: seq<Item>, keys: set<string>): seq<string> { Concat(Parts(items, keys)) }

  lemma NewFromResult(items: seq<Item>, keys: set<string>)
    requires items != [] && items[0].Result?
    ensures var found := Excerpted(SplitChunks(Strip(items[0].content)));
      NewExcerpts(items, keys) == Fresh(found, keys) + NewExcerpts(items[1..], keys + Members(found))
  {
    hide Excerpted, SplitChunks, Strip, Fresh;
    var found := Excerpted(SplitChunks(Strip(items[0].content)));
    var novel, later := Fresh(found, keys), Parts(items[1..], keys + Members(found));
    if novel == [] {
      assert [] + later == later && [] + Concat(later) == Concat(later);
    } else {
      assert ([novel] + later)[1..] == later;
    }
  }

  lemma NewFromOther(items: seq<Item>, keys: set<string>)
    requires items != [] && !items[0].Result?
    ensures NewExcerpts(items, keys) == NewExcerpts(items[1..], keys)
  {
  }

  lemma BodiesFrom(block: Block, blocks: seq<Block>)
    ensures Bodies([block] + blocks) == if block.Search? then [block.body] + Bodies(blocks) else Bodies(blocks)
  {
    assert ([block] + blocks)[1..] == blocks;
    assert [] + Bodies(blocks) == Bodies(blocks);
  }

  /**
    The search blocks hold exactly the new excerpts: one block for each result that has any,
    its text joined from them.
  */
  lemma {:induction false} BlocksHoldTheNew(items: seq<Item>, keys: set<string>, number: nat)
    ensures Bodies(Render(items, keys, number).0) == Joined(Parts(items, keys))
    ensures forall i :: 0 <= i < |Parts(items, keys)| ==> Parts(items, keys)[i] != []
    decreases |items|
  {
    hide SplitChunks, Strip, Excerpted, Fresh, Join, Bodies, Joined;
    if items == [] {
      NoBodies();
    } else {
      var (block, seen) := RenderOne(items[0], keys, number);
      var next := if block.Some? then number + 1 else number;
      BlocksHoldTheNew(items[1..], seen, next);
      var later := Parts(items[1..], seen);
      if block.Some? { BodiesFrom(block.value, Render(items[1..], seen, next).0); }
      if items[0].Result? {
        var novel := Fresh(Excerpted(SplitChunks(Strip(items[0].content))), keys);
        assert Parts(items, keys) == if novel == [] then later else [novel] + later by {
          assert [] + later == later;
        }
        JoinedFrom(novel, later);
      }
    }
  }

  lemma JoinedFrom(part: seq<string>, parts: seq<seq<string>>)
    ensures Joined([part] + parts) == [Join(part)] + Joined(parts)
  {
    hide Join;
    assert ([part] + parts)[1..] == parts;
  }

  lemma NoBodies()
    ensures Bodies([]) == [] && Joined([]) == []
  {
  }

  /** The excerpts read out of the search blocks again. */
  function ReadBack(blocks: seq<Block>): seq<string> {
    if blocks == [] then []
    else (if blocks[0].Search? then SplitChunks(blocks[0].body) else []) + ReadBack(blocks[1..])
  }

  lemma ReadFrom(block: Block, blocks: seq<Block>)
    ensures ReadBack([block] + blocks)
         == if block.Search? then SplitChunks(block.body) + ReadBack(blocks) else ReadBack(blocks)
  {
    hide SplitChunks;
    assert ([block] + blocks)[1..] == blocks;
    assert [] + ReadBack(blocks) == ReadBack(blocks);
  }

  /** The excerpts of every result can be told apart. */
  predicate Readable(items: seq<Item>) {
    forall i :: 0 <= i < |items| && items[i].Result? ==> AllExcerpts(Excerpted(SplitChunks(Strip(items[i].content))))
  }

  /**
    Where the results' excerpts can be told apart, so can those in the blocks: reading them
    back gives just the new ones.
  */
  lemma {:induction false} BlocksReadBack(items: seq<Item>, keys: set<string>, number: nat)
    requires Readable(items)
    ensures ReadBack(Render(items, keys, number).0) == NewExcerpts(items, keys)
    decreases |items|
  {
    hide SplitChunks, Strip, Excerpted, Fresh, Join, ReadBack, NewExcerpts, Excerpt;
    if items == [] {
      NothingNewAtAll(keys);
    } else {
      var (block, seen) := RenderOne(items[0], keys, number);
      var next := if block.Some? then number + 1 else number;
      assert forall i :: 0 <= i < |items[1..]| ==> items[1..][i] == items[i + 1];
      BlocksReadBack(items[1..], seen, next);
      var later, more := NewExcerpts(items[1..], seen), Render(items[1..], seen, next).0;
      if block.Some? { ReadFrom(block.value, more); }
      if items[0].Result? {
        var found := Excerpted(SplitChunks(Strip(items[0].content)));
        NewFromResult(items, keys);
        FreshAreNew(found, keys);
        FreshAreExcerpts(found, keys);
        SplitExcerpts(Fresh(found, keys));
        if Fresh(found, keys) == [] { assert [] + later == later; }
      } else {
        NewFromOther(items, keys);
      }
    }
  }

  lemma FreshAreExcerpts(chunks: seq<string>, seen: set<string>)
    requires AllExcerpts(chunks)
    ensures AllExcerpts(Fresh(chunks, seen))
  {
    hide Excerpt;
    FreshFacts(chunks, seen);
    var kept := Fresh(chunks, seen);
    assert forall i :: 0 <= i < |kept| ==> kept[i] in Members(kept);
  }

  /**
    A rendering after others shows only what none of them has, each excerpt once, and
    remembers all it shows; what it shows is what its search blocks are joined from.
  */
  lemma {:induction false} RenderShowsEachOnce(items: seq<Item>, shown: seq<string>, keys: set<string>, number: nat)
    requires NoDuplicates(shown) && Members(shown) <= keys
    ensures var novel, (blocks, after) := NewExcerpts(items, keys), Render(items, keys, number);
      && NoDuplicates(shown + novel) && Members(shown + novel) <= after && keys <= after
      && (forall c :: c in novel ==> c !in keys)
      && Bodies(blocks) == Joined(Parts(items, keys)) && Concat(Parts(items, keys)) == novel
  {
    hide Render, Parts, Bodies, Joined, NoDuplicates;
    NewIsNew(items, shown, keys, number);
    BlocksHoldTheNew(items, keys, number);
  }

  lemma {:induction false} NewIsNew(items: seq<Item>, shown: seq<string>, keys: set<string>, number: nat)
    requires NoDuplicates(shown) && Members(shown) <= keys
    ensures var novel, after := NewExcerpts(items, keys), Render(items, keys, number).1;
      && NoDuplicates(shown + novel) && Members(shown + novel) <= after && keys <= after
      && forall c :: c in novel ==> c !in keys
    decreases |items|
  {
    hide NoDuplicates, SplitChunks, Strip, Excerpted, Fresh, Join, NewExcerpts;
    if items == [] {
      assert NewExcerpts(items, keys) == [] by { NothingNewAtAll(keys); }
      assert shown + [] == shown;
    } else {
      var (block, seen) := RenderOne(items[0], keys, number);
      var next := if block.Some? then number + 1 else number;
      if items[0].Result? {
        var found := Excerpted(SplitChunks(Strip(items[0].content)));
        var novel := Fresh(found, keys);
        FreshAreNew(found, keys);
        NewFromResult(items, keys);
        forall c | c in novel ensures c !in shown { assert c in Members(novel); }
        NoDuplicatesConcat(shown, novel);
        MembersConcat(shown, novel);
        NewIsNew(items[1..], shown + novel, seen, next);
        var later := NewExcerpts(items[1..], seen);
        assert shown + (novel + later) == shown + novel + later;
        forall c | c in novel + later ensures c !in keys { if c in novel { assert c in Members(novel); } }
      } else {
        NewFromOther(items, keys);
        NewIsNew(items[1..], shown, seen, next);
      }
    }
  }

  lemma {:induction false} KeysAreNoNotes(items: seq<Item>, keys: set<string>, number: nat)
    requires forall k :: k in keys ==> !IsNote(k)
    ensures forall k :: k in Render(items, keys, number).1 ==> !IsNote(k)
    decreases |items|
  {
    hide SplitChunks, Strip, Fresh, Join, IsNote, Excerpted;
    if items != [] {
      var (block, seen) := RenderOne(items[0], keys, number);
      if items[0].Result? { NoteIsNoExcerpt(SplitChunks(Strip(items[0].content))); }
      KeysAreNoNotes(items[1..], seen, if block.Some? then number + 1 else number);
    }
  }

  lemma {:induction false} NoteIsNoExcerpt(chunks: seq<string>)
    ensures forall c :: c in Excerpted(chunks) ==> !IsNote(c)
  {
    hide IsNote;
    if chunks != [] { NoteIsNoExcerpt(chunks[1..]); }
  }

  lemma NothingNewAtAll(keys: set<string>)
    ensures NewExcerpts([], keys) == [] && ReadBack([]) == [] && keys + Members([]) == keys
  {
  }

  lemma {:induction false} FreshAreNew(chunks: seq<string>, seen: set<string>)
    ensures NoDuplicates(Fresh(chunks, seen)) && Members(Fresh(chunks, seen)) !! seen
    ensures Members(Fresh(chunks, seen)) <= Members(chunks)
  {
    FreshFacts(chunks, seen);
  }

  /** A search: its label, and the excerpts the archive returned for it. */
  datatype Found = Found(query: string, excerpts: seq<string>)

  function Raw(finds: seq<Found>): seq<Item> {
    if finds == [] then [] else [Result(finds[0].query, Join(finds[0].excerpts))] + Raw(finds[1..])
  }

  /** The same searches, each stripped of what the conversation already held when it arrived. */
  function Early(finds: seq<Found>, seen: set<string>): seq<Item> {
    if finds == [] then []
    else [Result(finds[0].query, Dropped(Join(finds[0].excerpts), seen))]
         + Early(finds[1..], seen + Members(finds[0].excerpts))
  }

  lemma {:induction false} FreshOfFresh(cs: seq<string>, seen: set<string>)
    ensures Fresh(Fresh(cs, seen), seen) == Fresh(cs, seen)
  {
    if cs != [] {
      if cs[0] in seen {
        FreshOfFresh(cs[1..], seen);
      } else {
        var rest := Fresh(cs[1..], seen + {cs[0]});
        FreshOfFresh(cs[1..], seen + {cs[0]});
        assert ([cs[0]] + rest)[1..] == rest;
      }
    }
  }

  lemma {:induction false} RenderOneAgrees(f: Found, seen: set<string>, number: nat)
    requires AllExcerpts(f.excerpts)
    ensures RenderOne(Result(f.query, Dropped(Join(f.excerpts), seen)), seen, number)
         == RenderOne(Result(f.query, Join(f.excerpts)), seen, number)
    ensures RenderOne(Result(f.query, Join(f.excerpts)), seen, number).1 == seen + Members(f.excerpts)
  {
    hide SplitChunks, Strip, Dropped;
    var cs := f.excerpts;
    DroppedHoldsTheFresh(cs, seen);
    SplitExcerpts(cs);
    ResearchOfExcerpts(cs);
    JoinStripFixed(cs);
    FreshOfFresh(cs, seen);
    FreshFacts(cs, seen);
    assert seen + Members(Fresh(cs, seen)) == seen + Members(cs);
  }

  /** Dropping early loses nothing: same blocks, numbers and labels, same final keys, as rendering the raw results. */
  lemma {:induction false} EarlyDroppingLosesNothing(finds: seq<Found>, seen: set<string>, number: nat)
    requires forall i :: 0 <= i < |finds| ==> AllExcerpts(finds[i].excerpts)
    ensures Render(Early(finds, seen), seen, number) == Render(Raw(finds), seen, number)
  {
    hide RenderOne, Dropped, Join;
    if finds != [] {
      var f := finds[0];
      RenderOneAgrees(f, seen, number);
      var seen' := seen + Members(f.excerpts);
      var one := RenderOne(Result(f.query, Join(f.excerpts)), seen, number);
      EarlyDroppingLosesNothing(finds[1..], seen', if one.0.Some? then number + 1 else number);
      assert Early(finds, seen)[1..] == Early(finds[1..], seen');
      assert Raw(finds)[1..] == Raw(finds[1..]);
    }
  }
}
