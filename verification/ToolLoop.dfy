/** The loop object: what each call, nudge and compaction does to the two lists and the shown set. */
module ToolLoop {
  import opened Wrappers
  import opened Excerpts
  import opened Research
  import opened LoreLoop

  const CHARS_PER_TOKEN := 3
  const MAX_REPEATS: nat := 2

  function RepeatNote(round: nat): string { NOTE_PREFIX + " Already ran in round " + Decimal(round) + "." }

  const SCOPE := "earlier searches from this run"

  lemma NoteReadsAsNothing(note: string)
    requires NoteText(note)
    ensures Excerpted(SplitChunks(note)) == [] && Strip(note) == note
  {
    hide SplitChunks;
    SplitSingle(note);
    StripFixes(note);
    assert [note][1..] == [];
  }

  lemma RepeatNoteIsNote(round: nat)
    ensures NoteText(RepeatNote(round))
  {
    var d := Decimal(round);
    hide Decimal;
    assert '\n' !in d && '\n' !in NOTE_PREFIX + " Already ran in round ";
    NewlineFreeHasNoSeparator(RepeatNote(round));
  }

  // -- set bookkeeping over the victims --

  /** Every chunk, notes included, of the tool results in a list. */
  function ChunksOf(list: seq<Message>): set<string> {
    if list == [] then {}
    else (if list[0].role == Tool then Members(SplitChunks(list[0].content)) else {}) + ChunksOf(list[1..])
  }

  lemma {:induction false} ExcerptedMembers(chunks: seq<string>)
    ensures forall c :: c in Excerpted(chunks) <==> c in chunks && !IsNote(c)
  {
    if chunks != [] { ExcerptedMembers(chunks[1..]); }
  }

  lemma {:induction false} ChunksAndExcerpts(plan: seq<Entry>, k: nat)
    requires forall e :: e in plan ==> WellRoled(e)
    ensures forall c :: c in PairExcerpts(OldestPairs(plan, k)) <==> c in ChunksOf(OldestPairs(plan, k)) && !IsNote(c)
  {
    hide SplitChunks, Strip;
    if plan != [] && k > 0 {
      assert WellRoled(plan[0]);
      var k' := if plan[0].Pair? then k - 1 else k;
      ChunksAndExcerpts(plan[1..], k');
      if plan[0].Pair? {
        var older := OldestPairs(plan[1..], k');
        var both := [plan[0].call, plan[0].result] + older;
        assert both[1..] == [plan[0].result] + older && both[2..] == older && both[1..][1..] == older;
        ExcerptedMembers(SplitChunks(plan[0].result.content));
      }
    }
  }

  lemma {:induction false} KeepNoDuplicates(xs: seq<Message>, victims: set<Message>)
    requires NoDuplicates(xs)
    ensures NoDuplicates(Keep(xs, victims)) && forall m :: m in Keep(xs, victims) ==> m in xs
  {
    if xs != [] {
      KeepNoDuplicates(xs[1..], victims);
      assert xs[0] !in xs[1..];
      var rest := Keep(xs[1..], victims);
      assert forall i :: 0 <= i < |rest| ==> rest[i] in rest;
    }
  }

  lemma RewrittenNoDuplicates(xs: seq<Message>, victims: set<Message>, insert: seq<Message>)
    requires NoDuplicates(xs) && |insert| <= 1 && forall m :: m in insert ==> m !in xs
    ensures NoDuplicates(Rewritten(xs, victims, insert))
  {
    hide Keep, FirstOf;
    KeepNoDuplicates(xs, victims);
    var kept, first := Keep(xs, victims), FirstOf(xs, victims);
    if first <= |kept| {
      if insert == [] {
        assert kept[..first] + insert + kept[first..] == kept;
      } else {
        assert insert == [insert[0]];
        InsertedNoDuplicates(kept, first, insert[0]);
      }
    }
  }

  lemma InsertedNoDuplicates<T>(xs: seq<T>, k: nat, x: T)
    requires NoDuplicates(xs) && k <= |xs| && x !in xs
    ensures NoDuplicates(xs[..k] + [x] + xs[k..])
  {
    var ys := xs[..k] + [x] + xs[k..];
    forall i, j | 0 <= i < j < |ys| ensures ys[i] != ys[j] {
      assert ys[i] == if i < k then xs[i] else if i == k then x else xs[i - 1];
      assert ys[j] == if j < k then xs[j] else if j == k then x else xs[j - 1];
    }
  }

  lemma {:induction false} RemovePairsMembers(plan: seq<Entry>, k: nat)
    ensures forall e :: e in RemovePairs(plan, k) ==> e in plan
  {
    if plan != [] && k > 0 { RemovePairsMembers(plan[1..], if plan[0].Pair? then k - 1 else k); }
  }

  lemma CondenseMembers(plan: seq<Entry>, k: nat, summary: seq<Entry>)
    ensures forall e :: e in Condense(plan, k, summary) ==> e in plan || e in summary
  {
    RemovePairsMembers(plan[Lead(plan)..], k);
  }

  lemma CondensedExcerpts(plan: seq<Entry>, k: nat, summary: seq<Entry>)
    requires forall e :: e in summary ==> e.Summary?
    requires |summary| <= 1
    ensures LiveExcerpts(plan) == PairExcerpts(OldestPairs(plan, k)) + LiveExcerpts(Condense(plan, k, summary))
  {
    hide SplitChunks, PairExcerpts, OldestPairs, RemovePairs;
    var l := Lead(plan);
    RemovedExcerpts(plan, k);
    LeadHasNoPairs(plan, k);
    LiveConcat(plan[..l], RemovePairs(plan[l..], k));
    LiveConcat(plan[..l], summary);
    LiveConcat(plan[..l] + summary, RemovePairs(plan[l..], k));
    assert LiveExcerpts(summary) == [] by { if summary != [] { assert summary[0] in summary && summary[1..] == []; } }
  }

  /** shown is exact: the seed plus every excerpt verbatim in a live result, each there once and never in the seed. */
  ghost predicate Exact(shown: set<string>, seed: set<string>, live: seq<string>) {
    && shown == seed + Members(live)
    && NoDuplicates(live) && seed !! Members(live)
    && (forall c :: c in seed ==> !IsNote(c)) && AllExcerpts(live)
  }

  /** Appending what was new to the shown set keeps it exact. */
  lemma ExactAfterFresh(shown: set<string>, seed: set<string>, live: seq<string>, found: seq<string>)
    requires Exact(shown, seed, live) && AllExcerpts(found)
    ensures Exact(shown + Members(found), seed, live + Fresh(found, shown))
  {
    var novel := Fresh(found, shown);
    FreshFacts(found, shown);
    MembersConcat(live, novel);
    assert forall i :: 0 <= i < |novel| ==> novel[i] in Members(novel);
    assert forall i :: 0 <= i < |live| ==> live[i] in Members(live);
    FreshAreExcerpts(found, shown);
    assert shown + Members(found) == seed + Members(live + novel);
  }

  /** A retrieved excerpt is left out as "already shown" exactly when the seed or a live result holds it. */
  lemma OmittedIffShown(shown: set<string>, seed: set<string>, live: seq<string>, found: seq<string>, c: string)
    requires Exact(shown, seed, live) && c in found
    ensures c !in Fresh(found, shown) <==> c in seed || c in live
  {
    FreshFacts(found, shown);
    assert c in Members(found);
    assert c in Fresh(found, shown) <==> c in Members(Fresh(found, shown));
  }

  /** The calls and results of a list, by identity. */
  function PairsOnly(list: seq<Message>): seq<Message> {
    if list == [] then []
    else (if list[0].role == Call || list[0].role == Tool then [list[0]] else []) + PairsOnly(list[1..])
  }

  lemma {:induction false} PairsOnlyConcat(a: seq<Message>, b: seq<Message>)
    ensures PairsOnly(a + b) == PairsOnly(a) + PairsOnly(b)
  {
    if a == [] {
      assert a + b == b;
    } else {
      assert (a + b)[0] == a[0] && (a + b)[1..] == a[1..] + b;
      PairsOnlyConcat(a[1..], b);
      var one := if a[0].role == Call || a[0].role == Tool then [a[0]] else [];
      assert one + (PairsOnly(a[1..]) + PairsOnly(b)) == one + PairsOnly(a[1..]) + PairsOnly(b);
    }
  }

  /** Both lists of one plan hold the same surviving call and result objects, in the same order. */
  lemma {:induction false} SamePairsInBothLists(plan: seq<Entry>)
    requires forall e :: e in plan ==> WellRoled(e)
    ensures PairsOnly(View(plan, true)) == PairsOnly(View(plan, false))
  {
    if plan != [] {
      var e, rest := plan[0], plan[1..];
      assert WellRoled(e);
      SamePairsInBothLists(rest);
      PairsOnlyConcat(ViewOne(e, true), View(rest, true));
      PairsOnlyConcat(ViewOne(e, false), View(rest, false));
      if !e.Pair? {
        assert |ViewOne(e, true)| == 1 && ViewOne(e, true)[1..] == [];
        assert e.Summary? ==> ViewOne(e, false)[1..] == [];
      }
    }
  }

  /** Discarding the victims' chunks keeps it exact for what is left. */
  lemma ExactAfterDiscard(shown: set<string>, seed: set<string>, gone: seq<string>, left: seq<string>,
                          chunks: set<string>)
    requires Exact(shown, seed, gone + left)
    requires forall c :: c in gone <==> c in chunks && !IsNote(c)
    ensures Exact(shown - chunks, seed, left)
    ensures shown - chunks == shown - Members(gone)
  {
    MembersConcat(gone, left);
    assert forall i :: 0 <= i < |left| ==> (gone + left)[|gone| + i] == left[i];
    forall c | c in gone ensures c !in left {
      var i :| 0 <= i < |gone| && gone[i] == c;
      assert (gone + left)[i] == c;
    }
    assert forall c :: c in seed ==> c !in chunks;
    assert shown - chunks == seed + Members(left);
  }

  /** A tool call the model asked for: its signature, and the excerpts the archive would return for it. */
  datatype ToolCall = ToolCall(signature: string, excerpts: seq<string>)

  /** One model reply: prose, nothing at all, or tool calls with the reasoning behind them. */
  datatype Reply = Answer(text: string) | Empty | Calls(reasoning: string, calls: seq<ToolCall>)

  lemma SummaryView(e: Entry)
    requires e.Summary?
    ensures View([e], true) == [e.plain] && View([e], false) == [e.tagged]
  {
    assert [e][1..] == [] && View([e][1..], true) == [] && View([e][1..], false) == [];
  }

  /** A list as rendering reads it; the label of a search comes from the arguments of its call. */
  function Items(list: seq<Message>, named: Message -> string): seq<Item> {
    if list == [] then [] else [ItemOf(list[0], named)] + Items(list[1..], named)
  }

  function ItemOf(m: Message, named: Message -> string): Item {
    if m.condensed then Condensed(m.content)
    else if m.role == Tool then Result(named(m), m.content) else Other
  }

  lemma {:induction false} FreshOfNew(found: seq<string>, keys: set<string>)
    requires NoDuplicates(found) && keys !! Members(found)
    ensures Fresh(found, keys) == found
  {
    if found != [] {
      assert found[0] in Members(found) && forall i :: 0 <= i < |found[1..]| ==> found[1..][i] == found[i + 1];
      FreshOfNew(found[1..], keys + {found[0]});
    }
  }

  lemma ItemsOfPair(c: Message, r: Message, list: seq<Message>, named: Message -> string)
    ensures Items([c, r] + list, named) == [ItemOf(c, named), ItemOf(r, named)] + Items(list, named)
  {
    assert ([c, r] + list)[1..] == [r] + list && ([r] + list)[1..] == list;
  }

  lemma LiveApart(found: seq<string>, later: seq<string>, keys: set<string>)
    requires NoDuplicates(found + later) && keys !! Members(found + later)
    ensures NoDuplicates(found) && keys !! Members(found)
    ensures NoDuplicates(later) && keys + Members(found) !! Members(later)
  {
    var all := found + later;
    assert forall i :: 0 <= i < |found| ==> all[i] == found[i];
    assert forall i :: 0 <= i < |later| ==> all[|found| + i] == later[i];
    assert forall c :: c in found || c in later ==> c in Members(all);
  }

  /** A call and its result: what is new in the result is shown, and the rest follows. */
  lemma ResultShowsItsExcerpts(items: seq<Item>, keys: set<string>, number: nat) returns (next: nat)
    requires |items| >= 2 && items[0].Other? && items[1].Result?
    ensures var found, rest := Excerpted(SplitChunks(Strip(items[1].content))), items[2..];
      && NewExcerpts(items, keys) == Fresh(found, keys) + NewExcerpts(rest, keys + Members(found))
      && Render(items, keys, number).1 == Render(rest, keys + Members(found), next).1
  {
    hide SplitChunks, Strip, Excerpted, Fresh, Join, NewExcerpts;
    var found := Excerpted(SplitChunks(Strip(items[1].content)));
    NewFromOther(items, keys);
    NewFromResult(items[1..], keys);
    assert items[1..][1..] == items[2..];
    next := if Fresh(found, keys) == [] then number else number + 1;
  }

  lemma SummaryShowsNothing(item: Item, rest: seq<Item>, keys: set<string>, number: nat)
    requires item.Condensed?
    ensures NewExcerpts([item] + rest, keys) == NewExcerpts(rest, keys)
    ensures Render([item] + rest, keys, number).1 == Render(rest, keys, number + 1).1
  {
    hide NewExcerpts;
    assert ([item] + rest)[1..] == rest;
    NewFromOther([item] + rest, keys);
  }

  /** No live result has space at its ends, so stripping one before it is split changes nothing. */
  ghost predicate Trimmed(plan: seq<Entry>) {
    forall e :: e in plan && e.Pair? ==> Strip(e.result.content) == e.result.content
  }

  lemma TrimmedWith(plan: seq<Entry>, e: Entry)
    requires Trimmed(plan) && (e.Pair? ==> Strip(e.result.content) == e.result.content)
    ensures Trimmed(plan + [e])
  {
    hide Strip;
  }

  lemma TrimmedCondensed(plan: seq<Entry>, k: nat, summary: seq<Entry>)
    requires Trimmed(plan) && forall e :: e in summary ==> e.Summary?
    ensures Trimmed(Condense(plan, k, summary))
  {
    hide Strip, Condense;
    CondenseMembers(plan, k, summary);
  }

  lemma TrimmedRest(plan: seq<Entry>)
    requires plan != [] && Trimmed(plan)
    ensures Trimmed(plan[1..]) && (plan[0].Pair? ==> Strip(plan[0].result.content) == plan[0].result.content)
  {
    hide Strip;
  }

  /** What the first entry adds to tool_messages and to the live excerpts. */
  lemma FirstEntry(plan: seq<Entry>, named: Message -> string)
    requires plan != []
    ensures var now, later := Items(View(plan, false), named), Items(View(plan[1..], false), named);
      match plan[0]
      case Base(_) => now == later && LiveExcerpts(plan) == LiveExcerpts(plan[1..])
      case Summary(_, t) => now == [ItemOf(t, named)] + later && LiveExcerpts(plan) == LiveExcerpts(plan[1..])
      case Pair(c, r) =>
        && now == [ItemOf(c, named), ItemOf(r, named)] + later
        && LiveExcerpts(plan) == Excerpted(SplitChunks(r.content)) + LiveExcerpts(plan[1..])
  {
    hide SplitChunks, Excerpted, ItemOf;
    var tail := View(plan[1..], false);
    match plan[0]
    case Base(_) => assert View(plan, false) == tail;
    case Summary(_, t) => assert ([t] + tail)[1..] == tail;
    case Pair(c, r) => ItemsOfPair(c, r, tail, named);
  }

  /**
    Rendering tool_messages shows exactly the excerpts standing in live results, whatever
    was condensed, and adds them to the keys.
  */
  lemma {:induction false} RenderingShowsTheLive(plan: seq<Entry>, keys: set<string>, named: Message -> string,
                                                 number: nat)
    requires (forall e :: e in plan ==> WellRoled(e)) && Trimmed(plan)
    requires NoDuplicates(LiveExcerpts(plan)) && keys !! Members(LiveExcerpts(plan))
    ensures var items := Items(View(plan, false), named);
      && NewExcerpts(items, keys) == LiveExcerpts(plan)
      && Render(items, keys, number).1 == keys + Members(LiveExcerpts(plan))
    decreases |plan|
  {
    hide SplitChunks, Strip, Excerpted, Fresh, Join, NewExcerpts, NoDuplicates, Members, Trimmed;
    if plan == [] {
      NothingNewAtAll(keys);
    } else {
      hide Render, View, LiveExcerpts, Items;
      var rest := plan[1..];
      var tail := Items(View(rest, false), named);
      assert WellRoled(plan[0]);
      TrimmedRest(plan);
      FirstEntry(plan, named);
      match plan[0]
      case Base(_) => RenderingShowsTheLive(rest, keys, named, number);
      case Summary(_, t) =>
        SummaryShowsNothing(ItemOf(t, named), tail, keys, number);
        RenderingShowsTheLive(rest, keys, named, number + 1);
      case Pair(c, r) =>
        var found, later := Excerpted(SplitChunks(r.content)), LiveExcerpts(rest);
        var items := [ItemOf(c, named), ItemOf(r, named)] + tail;
        assert items[2..] == tail;
        LiveApart(found, later, keys);
        MembersConcat(found, later);
        FreshOfNew(found, keys);
        var next := ResultShowsItsExcerpts(items, keys, number);
        RenderingShowsTheLive(rest, keys + Members(found), named, next);
    }
  }

  /**
    So after any run of the loop a rendering against the seed shows the live excerpts and
    leaves the seed's keys as the loop's.
  */
  lemma RenderingMatchesTheLoop(plan: seq<Entry>, shown: set<string>, seed: set<string>, named: Message -> string,
                                number: nat)
    requires WellFormed(plan) && Exact(shown, seed, LiveExcerpts(plan)) && Trimmed(plan)
    ensures var items := Items(View(plan, false), named);
      && NewExcerpts(items, seed) == LiveExcerpts(plan) && Render(items, seed, number).1 == shown
      && ReadBack(Render(items, seed, number).0) == LiveExcerpts(plan)
  {
    hide LiveExcerpts, View, Render, NewExcerpts, ReadBack, Items;
    RenderingShowsTheLive(plan, seed, named, number);
    ItemsReadBack(plan, named);
    BlocksReadBack(Items(View(plan, false), named), seed, number);
  }

  lemma {:induction false} ItemsReadBack(plan: seq<Entry>, named: Message -> string)
    requires (forall e :: e in plan ==> WellRoled(e)) && Trimmed(plan) && AllExcerpts(LiveExcerpts(plan))
    ensures Readable(Items(View(plan, false), named))
  {
    hide SplitChunks, Strip, Excerpted, AllExcerpts, Readable, Trimmed;
    if plan == [] {
      NothingToRead();
    } else {
      hide View, LiveExcerpts, Items;
      var rest := plan[1..];
      var tail := Items(View(rest, false), named);
      assert WellRoled(plan[0]);
      TrimmedRest(plan);
      FirstEntry(plan, named);
      match plan[0]
      case Base(_) => ItemsReadBack(rest, named);
      case Summary(_, t) =>
        ItemsReadBack(rest, named);
        ReadableAfter(ItemOf(t, named), tail);
      case Pair(c, r) =>
        ExcerptsApart(Excerpted(SplitChunks(r.content)), LiveExcerpts(rest));
        ItemsReadBack(rest, named);
        ReadableAfter(ItemOf(r, named), tail);
        ReadableAfter(ItemOf(c, named), [ItemOf(r, named)] + tail);
        assert [ItemOf(c, named)] + ([ItemOf(r, named)] + tail) == [ItemOf(c, named), ItemOf(r, named)] + tail;
    }
  }

  lemma NothingToRead()
    ensures Readable([])
  {
  }

  lemma ReadableAfter(item: Item, items: seq<Item>)
    requires Readable(items)
    requires item.Result? ==> AllExcerpts(Excerpted(SplitChunks(Strip(item.content))))
    ensures Readable([item] + items)
  {
    hide SplitChunks, Strip, Excerpted, AllExcerpts;
  }

  lemma ExcerptsApart(a: seq<string>, b: seq<string>)
    requires AllExcerpts(a + b)
    ensures AllExcerpts(a) && AllExcerpts(b)
  {
    hide Excerpt;
    assert forall i :: 0 <= i < |a| ==> (a + b)[i] == a[i];
    assert forall i :: 0 <= i < |b| ==> (a + b)[|a| + i] == b[i];
  }

  class ToolLoop {
    var messages: seq<Message>
    var toolMessages: seq<Message>
    var shown: set<string>
    var ran: map<string, nat>
    var repeats: nat
    ghost var plan: seq<Entry>
    ghost const seed: set<string>

    ghost predicate Valid()
      reads this
    {
      && WellFormed(plan)
      && messages == View(plan, true) && toolMessages == View(plan, false)
      && Exact(shown, seed, LiveExcerpts(plan)) && Trimmed(plan)
    }

    constructor (work: seq<Message>, seenKeys: set<string>)
      requires NoDuplicates(work)
      requires forall m :: m in work ==> m.role != Call && m.role != Tool
      requires forall k :: k in seenKeys ==> !IsNote(k)
      ensures Valid() && messages == work && toolMessages == [] && shown == seenKeys && seed == seenKeys
      ensures ran == map[] && repeats == 0 && plan == Bases(work)
    {
      messages, toolMessages, shown := work, [], seenKeys;
      ran, repeats := map[], 0;
      plan, seed := Bases(work), seenKeys;
      new;
      hide WellFormed, Exact, View, Trimmed;
      BasesFacts(work);
      BasesAreFormed(work, seenKeys);
    }

    method Nudge()
      requires Valid()
      modifies this`messages, this`plan
      ensures Valid() && |plan| == |old(plan)| + 1 && plan[..|old(plan)|] == old(plan) && plan[|old(plan)|].Base?
      ensures messages == old(messages) + [plan[|old(plan)|].m] && fresh(plan[|old(plan)|].m)
      ensures LiveExcerpts(plan) == LiveExcerpts(old(plan))
    {
      var m := new Message(Assistant, "I didn't find enough information. Let me try a different search.", "", false);
      hide SplitChunks, Exact, Trimmed, WellFormed;
      AppendEntry(plan, Base(m));
      TrimmedWith(plan, Base(m));
      assert LiveExcerpts(plan) + [] == LiveExcerpts(plan);
      messages := messages + [m];
      plan := plan + [Base(m)];
    }

    /** Each call is appended directly before its result, to both lists. */
    method AppendPair(reasoning: string, content: string)
      requires WellFormed(plan) && messages == View(plan, true) && toolMessages == View(plan, false)
      modifies this`messages, this`toolMessages, this`plan
      ensures WellFormed(plan) && messages == View(plan, true) && toolMessages == View(plan, false)
      ensures |plan| == |old(plan)| + 1 && plan[..|old(plan)|] == old(plan)
      ensures plan[|old(plan)|].Pair? && plan[|old(plan)|].result.content == content
      ensures LiveExcerpts(plan) == LiveExcerpts(old(plan)) + Excerpted(SplitChunks(content))
    {
      hide SplitChunks, Strip;
      var c := new Message(Call, "", reasoning, false);
      var r := new Message(Tool, content, "", false);
      AppendEntry(plan, Pair(c, r));
      messages := messages + [c, r];
      toolMessages := toolMessages + [c, r];
      plan := plan + [Pair(c, r)];
    }

    /**
      What a call's result message will hold: a note for a repeat, else what is left once the
      shown excerpts are dropped.
    */
    method ResultFor(call: ToolCall, round: nat) returns (content: string)
      requires Exact(shown, seed, LiveExcerpts(plan)) && AllExcerpts(call.excerpts)
      modifies this`ran, this`repeats, this`shown
      ensures Strip(content) == content
      ensures Exact(shown, seed, LiveExcerpts(plan) + Excerpted(SplitChunks(content)))
      ensures if call.signature in old(ran) then
                && ran == old(ran) && repeats == old(repeats) + 1 && shown == old(shown)
                && Excerpted(SplitChunks(content)) == []
              else
                && ran == old(ran)[call.signature := round] && repeats == old(repeats)
                && shown == old(shown) + Members(call.excerpts)
                && content == Dropped(Join(call.excerpts), old(shown))
                && Excerpted(SplitChunks(content)) == Fresh(call.excerpts, old(shown))
    {
      hide SplitChunks, Strip, Join, Dropped, NoteText, Exact, LiveExcerpts, Excerpted, Fresh, AllExcerpts;
      if call.signature in ran {
        repeats := repeats + 1;
        content := RepeatNote(ran[call.signature]);
        RepeatNoteIsNote(ran[call.signature]);
        NoteReadsAsNothing(content);
        assert LiveExcerpts(plan) + [] == LiveExcerpts(plan);
      } else {
        ran := ran[call.signature := round];
        var raw := Join(call.excerpts);
        content := Dropped(raw, shown);
        DroppedHoldsTheFresh(call.excerpts, shown);
        ExactAfterFresh(shown, seed, LiveExcerpts(plan), call.excerpts);
        shown := shown + Members(call.excerpts);
      }
    }

    /**
      One tool call. A signature that already ran is refused with a note; a new one
      is run and only the excerpts not yet shown enter the conversation.
    */
    method RunCall(call: ToolCall, reasoning: string, round: nat) returns (chars: nat)
      requires Valid() && AllExcerpts(call.excerpts)
      modifies this
      ensures Valid() && |plan| == |old(plan)| + 1 && plan[..|old(plan)|] == old(plan) && plan[|old(plan)|].Pair?
      ensures chars == |plan[|old(plan)|].result.content|
      ensures if call.signature in old(ran) then
                && ran == old(ran) && repeats == old(repeats) + 1 && shown == old(shown)
                && LiveExcerpts(plan) == LiveExcerpts(old(plan))
              else
                && ran == old(ran)[call.signature := round] && repeats == old(repeats)
                && shown == old(shown) + Members(call.excerpts)
                && plan[|old(plan)|].result.content == Dropped(Join(call.excerpts), old(shown))
                && LiveExcerpts(plan) == LiveExcerpts(old(plan)) + Fresh(call.excerpts, old(shown))
    {
      hide SplitChunks, Strip, Join, Dropped, Exact, WellFormed, Trimmed, View, LiveExcerpts, Excerpted, Fresh,
           AllExcerpts;
      var content := ResultFor(call, round);
      ghost var before := plan;
      AppendPair(reasoning, content);
      TrimmedWith(before, plan[|before|]);
      assert plan == before + [plan[|before|]];
      assert LiveExcerpts(before) + [] == LiveExcerpts(before);
      chars := |content|;
    }

    method CountResults() returns (n: nat)
      requires Valid()
      ensures n == CountPairs(plan)
    {
      hide Exact, Trimmed;
      SlicesAreOldestPairs(plan, [], 0);
      assert [] + View(plan, false) == View(plan, false);
      n := |ToolIndices(toolMessages, 0)|;
    }

    /** The victims: the calls and results of the oldest half of the results. */
    method Victims() returns (victims: seq<Message>)
      requires Valid() && CountPairs(plan) >= 2
      ensures victims == OldestPairs(plan, CountPairs(plan) / 2)
    {
      hide Exact, Trimmed;
      var results := ToolIndices(toolMessages, 0);
      SlicesAreOldestPairs(plan, [], CountPairs(plan) / 2);
      assert [] + View(plan, false) == View(plan, false);
      victims := SlicesAt(toolMessages, results[..|results| / 2]);
    }

    /** `shown_keys.discard` for every chunk of every victim result. */
    method Discard(victims: seq<Message>)
      modifies this`shown
      ensures shown == old(shown) - ChunksOf(victims)
    {
      hide SplitChunks;
      var i := 0;
      while i < |victims|
        invariant 0 <= i <= |victims|
        invariant shown - ChunksOf(victims[i..]) == old(shown) - ChunksOf(victims)
        invariant shown <= old(shown)
      {
        assert victims[i..][1..] == victims[i + 1..];
        if victims[i].role == Tool {
          var chunks := SplitChunks(victims[i].content);
          shown := shown - Members(chunks);
        }
        i := i + 1;
      }
      assert victims[i..] == [];
    }

    /** Rewrite both lists in place around the victims. */
    method RewriteBoth(victims: seq<Message>, content: string, ghost k: nat) returns (ghost summary: seq<Entry>)
      requires WellFormed(plan) && messages == View(plan, true) && toolMessages == View(plan, false)
      requires 0 < k && CountPairs(plan) > 0 && victims == OldestPairs(plan, k)
      modifies this`messages, this`toolMessages, this`plan
      ensures WellFormed(plan) && messages == View(plan, true) && toolMessages == View(plan, false)
      ensures plan == Condense(old(plan), k, summary)
      ensures if content == "" then summary == []
              else |summary| == 1 && IsSummary(summary[0], content)
    {
      var ids := Identities(victims);
      var plain, tagged: seq<Message> := [], [];
      summary := [];
      if content != "" {
        var p := new Message(User, content, "", false);
        var t := new Message(User, content, "", true);
        plain, tagged := [p], [t];
        summary := [Entry.Summary(p, t)];
        SummaryView(summary[0]);
      } else {
        assert View(summary, true) == [] && View(summary, false) == [];
      }
      assert View(summary, true) == plain && View(summary, false) == tagged;
      RewriteIsCondense(plan, k, summary, true);
      RewriteIsCondense(plan, k, summary, false);
      RewrittenNoDuplicates(messages, ids, plain);
      RewrittenNoDuplicates(toolMessages, ids, tagged);
      CondenseMembers(plan, k, summary);
      messages := Rewritten(messages, ids, plain);
      toolMessages := Rewritten(toolMessages, ids, tagged);
      plan := Condense(plan, k, summary);
    }

    /**
      `compact_tool_rounds`: condense the oldest half of the results. `summarised`
      is what the summariser returned, None for a failed call.
    */
    method Compact(n: nat, summarised: Option<string>)
      returns (reclaimed: nat, changed: bool, ghost summary: seq<Entry>)
      requires Valid()
      modifies this
      ensures Valid() && ran == old(ran) && repeats == old(repeats)
      ensures !changed ==> plan == old(plan) && messages == old(messages) && toolMessages == old(toolMessages)
                           && shown == old(shown) && reclaimed == 0
      ensures changed ==> CountPairs(old(plan)) >= 2 && plan == Condense(old(plan), CountPairs(old(plan)) / 2, summary)
      ensures changed ==>
                if HasBlocks(OldestPairs(old(plan), CountPairs(old(plan)) / 2))
                then summarised.Some? && |summary| == 1
                     && IsSummary(summary[0], CondensedContent(n, SCOPE, summarised.value))
                else summary == []
      ensures changed ==>
                var gone := PairExcerpts(OldestPairs(old(plan), CountPairs(old(plan)) / 2));
                LiveExcerpts(old(plan)) == gone + LiveExcerpts(plan) && shown == old(shown) - Members(gone)
      ensures CountPairs(old(plan)) >= 2 && summarised.Some? ==> changed
      ensures changed ==> reclaimed == Saved(Chars(OldestPairs(old(plan), CountPairs(old(plan)) / 2)),
                                             if summary == [] then 0 else |summary[0].plain.content|)
    {
      hide SplitChunks, Exact, WellFormed, View, Condense, LiveExcerpts, OldestPairs, CountPairs, ChunksOf, Trimmed;
      summary := [];
      var results := CountResults();
      if results < 2 { return 0, false, []; }
      ghost var k := CountPairs(plan) / 2;
      var victims := Victims();
      var found := HasBlocks(victims);
      if found && summarised.None? { return 0, false, []; }
      var content := if found then CondensedContent(n, SCOPE, summarised.value) else "";
      ghost var before := plan;
      Discard(victims);
      summary := RewriteBoth(victims, content, k);
      CondensedExcerpts(before, k, summary);
      TrimmedCondensed(before, k, summary);
      assert forall e :: e in before ==> WellRoled(e) by { Roles(before); }
      ChunksAndExcerpts(before, k);
      ExactAfterDiscard(old(shown), seed, PairExcerpts(victims), LiveExcerpts(plan), ChunksOf(victims));
      var removed := Chars(victims);
      reclaimed := Saved(removed, |content|);
      changed := true;
    }

    /** One round's calls: the reasoning rides on the first of them. */
    method RunCalls(reasoning: string, calls: seq<ToolCall>, round: nat) returns (chars: nat)
      requires Valid() && forall i :: 0 <= i < |calls| ==> AllExcerpts(calls[i].excerpts)
      modifies this
      ensures Valid() && |plan| == |old(plan)| + |calls| && plan[..|old(plan)|] == old(plan)
      ensures old(shown) <= shown && old(repeats) <= repeats
    {
      hide SplitChunks, Exact, WellFormed, View, LiveExcerpts, Trimmed;
      chars := 0;
      var i := 0;
      while i < |calls|
        invariant 0 <= i <= |calls|
        invariant Valid() && |plan| == |old(plan)| + i && plan[..|old(plan)|] == old(plan)
        invariant old(shown) <= shown && old(repeats) <= repeats
      {
        ghost var before := plan;
        var n := RunCall(calls[i], if i == 0 then reasoning else "", round);
        assert plan[..|old(plan)|] == before[..|old(plan)|];
        chars := chars + n;
        i := i + 1;
      }
    }

    /**
      `_run_tool_rounds` over a scripted environment: the model's replies, the token
      counts it reports and what the summariser returns. None means the caller has
      to synthesise from toolMessages. `rounds` is how many replies were taken: the
      first prose ends the run, and so does a round that reaches the repeat limit.
    */
    method Run(replies: seq<Reply>, used: seq<nat>, summaries: seq<Option<string>>, compactAt: real, hardAt: real)
      returns (answer: Option<string>, ghost rounds: nat)
      requires Valid() && |used| == |replies| == |summaries| && repeats < MAX_REPEATS
      requires forall i :: 0 <= i < |replies| && replies[i].Calls? ==>
                 forall j :: 0 <= j < |replies[i].calls| ==> AllExcerpts(replies[i].calls[j].excerpts)
      modifies this
      ensures Valid()
      ensures rounds <= |replies|
      ensures answer.Some? ==>
        rounds > 0 && Prose(replies[rounds - 1]) && answer.value == Strip(replies[rounds - 1].text)
      ensures forall i :: 0 <= i < rounds && (answer.None? || i < rounds - 1) ==> !Prose(replies[i])
      ensures answer.None? && rounds < |replies| ==> rounds > 0 && replies[rounds - 1].Calls?
      ensures repeats >= MAX_REPEATS ==> answer.None? && rounds > 0 && replies[rounds - 1].Calls?
    {
      hide SplitChunks, Exact, WellFormed, View, LiveExcerpts, Condense, Strip, Trimmed;
      var compactions, round := 0, 0;
      while round < |replies|
        invariant 0 <= round <= |replies| && Valid() && repeats < MAX_REPEATS
        invariant forall i :: 0 <= i < round ==> !Prose(replies[i])
      {
        var reply := replies[round];
        match reply {
          case Answer(text) =>
            if Strip(text) != "" { return Some(Strip(text)), round + 1; }
            Nudge();
          case Empty => Nudge();
          case Calls(reasoning, calls) =>
            var chars := RunCalls(reasoning, calls, round + 1);
            if repeats >= MAX_REPEATS { return None, round + 1; }
            var projected: int := used[round] + chars / CHARS_PER_TOKEN;
            if projected as real >= compactAt {
              compactions := compactions + 1;
              var reclaimed, changed, _ := Compact(compactions, summaries[round]);
              projected := projected - reclaimed;
              if projected as real >= hardAt { return None, round + 1; }
            }
        }
        round := round + 1;
      }
      return None, round;
    }

    /** The summary as both lists carry it: the same text, tagged only in toolMessages. */
    static ghost predicate IsSummary(e: Entry, content: string) {
      && e.Summary? && e.plain.content == e.tagged.content == content
      && e.tagged.condensed && !e.plain.condensed && e.plain.role == e.tagged.role == User
    }

    /** Tokens reclaimed by putting `added` characters in the place of `removed`. */
    static function Saved(removed: nat, added: nat): nat {
      if removed < added then 0 else (removed - added) / CHARS_PER_TOKEN
    }

    /** The model chose to answer. */
    static predicate Prose(r: Reply) { r.Answer? && Strip(r.text) != "" }

    /** Characters of content and reasoning in a list of messages. */
    static function Chars(list: seq<Message>): nat {
      if list == [] then 0 else |list[0].content| + |list[0].reasoning| + Chars(list[1..])
    }

    /** Whether rendering the victims yields any block at all. */
    static function HasBlocks(list: seq<Message>): bool {
      Render(Items(list, m => ""), {}, 0).0 != []
    }
  }

  lemma Roles(plan: seq<Entry>)
    requires WellFormed(plan)
    ensures forall e :: e in plan ==> WellRoled(e)
  {
  }

  function Bases(work: seq<Message>): seq<Entry> {
    if work == [] then [] else [Base(work[0])] + Bases(work[1..])
  }

  lemma BasesAreFormed(work: seq<Message>, seed: set<string>)
    requires NoDuplicates(work) && forall m :: m in work ==> m.role != Call && m.role != Tool
    requires forall k :: k in seed ==> !IsNote(k)
    ensures WellFormed(Bases(work)) && Trimmed(Bases(work)) && Exact(seed, seed, [])
  {
    hide Strip, View, LiveExcerpts, IsNote;
    BasesFacts(work);
  }

  lemma {:induction false} BasesFacts(work: seq<Message>)
    requires forall m :: m in work ==> m.role != Call && m.role != Tool
    ensures View(Bases(work), true) == work && View(Bases(work), false) == [] && LiveExcerpts(Bases(work)) == []
    ensures forall e :: e in Bases(work) ==> WellRoled(e) && e.Base?
  {
    if work != [] {
      assert work[0] in work;
      BasesFacts(work[1..]);
      assert Bases(work)[1..] == Bases(work[1..]);
    }
  }

  lemma AppendEntry(plan: seq<Entry>, e: Entry)
    requires WellFormed(plan) && WellRoled(e) && !e.Summary? && (e.Pair? ==> e.call != e.result)
    requires forall m :: m in ViewOne(e, true) ==> m !in View(plan, true) && m !in View(plan, false)
    ensures WellFormed(plan + [e])
    ensures View(plan + [e], true) == View(plan, true) + ViewOne(e, true)
    ensures View(plan + [e], false) == View(plan, false) + ViewOne(e, false)
    ensures LiveExcerpts(plan + [e]) ==
      LiveExcerpts(plan) + if e.Pair? then Excerpted(SplitChunks(e.result.content)) else []
  {
    hide SplitChunks, Strip;
    ViewConcat(plan, [e], true);
    ViewConcat(plan, [e], false);
    LiveConcat(plan, [e]);
    assert [e][1..] == [];
    assert forall m :: m in ViewOne(e, false) ==> m in ViewOne(e, true);
    NoDuplicatesConcat(View(plan, true), ViewOne(e, true));
    NoDuplicatesConcat(View(plan, false), ViewOne(e, false));
    assert View([e], true) == ViewOne(e, true) && View([e], false) == ViewOne(e, false);
    assert forall x :: x in plan + [e] ==> x in plan || x == e;
  }
}
