/**
  A lore thread's transcript between turns: appended to, never rewritten, except by
  compaction, which replaces the oldest half of its research by one summary.
*/
module Session {
  import opened Wrappers
  import L = LoreLoop
  import R = Research
  import T = ToolLoop

  datatype Kind = Question | Research | Answer

  datatype Entry = Entry(kind: Kind, content: string)

  datatype Payload = Payload(role: string, content: string)

  function Role(k: Kind): string { if k == Answer then "assistant" else "user" }

  function Payloads(t: seq<Entry>): (r: seq<Payload>)
    ensures |r| == |t| && forall i :: 0 <= i < |t| ==> r[i] == Payload(Role(t[i].kind), t[i].content)
  {
    if t == [] then [] else Payloads(t[..|t| - 1]) + [Payload(Role(t[|t| - 1].kind), t[|t| - 1].content)]
  }

  // -- what compaction does to a transcript --

  function CountBlocks(t: seq<Entry>): nat {
    if t == [] then 0 else CountBlocks(t[..|t| - 1]) + if t[|t| - 1].kind == Research then 1 else 0
  }

  /** The research blocks, oldest first. */
  function Blocks(t: seq<Entry>): (r: seq<Entry>)
    ensures |r| == CountBlocks(t)
  {
    if t == [] then [] else Blocks(t[..|t| - 1]) + if t[|t| - 1].kind == Research then [t[|t| - 1]] else []
  }

  /** The questions and answers. */
  function Talk(t: seq<Entry>): seq<Entry> {
    if t == [] then [] else Talk(t[..|t| - 1]) + if t[|t| - 1].kind == Research then [] else [t[|t| - 1]]
  }

  /** The rewriting loop over a prefix, with the oldest k blocks as victims. */
  function Compacted(t: seq<Entry>, k: nat, condensed: Entry): seq<Entry> {
    if t == [] then []
    else
      var init, x := t[..|t| - 1], t[|t| - 1];
      var older := CountBlocks(init);
      Compacted(init, k, condensed)
      + if x.kind != Research || older >= k then [x] else if older == 0 then [condensed] else []
  }

  lemma Grow(t: seq<Entry>, e: Entry)
    ensures CountBlocks(t + [e]) == CountBlocks(t) + if e.kind == Research then 1 else 0
    ensures Blocks(t + [e]) == if e.kind == Research then Blocks(t) + [e] else Blocks(t)
    ensures Talk(t + [e]) == if e.kind == Research then Talk(t) else Talk(t) + [e]
  {
    assert (t + [e])[..|t|] == t;
  }

  function BlocksLeft(t: seq<Entry>, k: nat, condensed: Entry): seq<Entry> {
    if CountBlocks(t) == 0 then []
    else if CountBlocks(t) <= k then [condensed]
    else [condensed] + Blocks(t)[k..]
  }

  /** One entry of the rewriting loop. */
  lemma CompactedGrows(t: seq<Entry>, x: Entry, k: nat, condensed: Entry)
    ensures var done, older := Compacted(t, k, condensed), CountBlocks(t);
      Compacted(t + [x], k, condensed) == if x.kind != Research || older >= k then done + [x]
        else if older == 0 then done + [condensed] else done
  {
    hide CountBlocks;
    assert (t + [x])[..|t|] == t;
    var done := Compacted(t, k, condensed);
    assert done + [] == done;
  }

  /** Questions and answers stay as they were; the oldest k blocks become the one summary. */
  lemma {:induction false} CompactionKeepsTheTalk(t: seq<Entry>, k: nat, condensed: Entry)
    requires k > 0 && condensed.kind == Research
    ensures Talk(Compacted(t, k, condensed)) == Talk(t)
    ensures Blocks(Compacted(t, k, condensed)) == BlocksLeft(t, k, condensed)
  {
    if t == [] {
      assert Compacted(t, k, condensed) == [];
    } else {
      hide Talk, CountBlocks, Blocks, Compacted, BlocksLeft;
      var init, x := t[..|t| - 1], t[|t| - 1];
      CompactionKeepsTheTalk(init, k, condensed);
      assert t == init + [x];
      var done := Compacted(init, k, condensed);
      CompactedGrows(init, x, k, condensed);
      LeftGrows(init, x, k, condensed);
      Grow(init, x);
      Grow(done, x);
      Grow(done, condensed);
      if x.kind == Research && CountBlocks(init) == 0 {
        assert BlocksLeft(init, k, condensed) + [condensed] == [condensed] by { NothingLeft(init, k, condensed); }
      }
    }
  }

  lemma NothingLeft(t: seq<Entry>, k: nat, condensed: Entry)
    requires CountBlocks(t) == 0
    ensures BlocksLeft(t, k, condensed) == []
  {
  }

  lemma LeftGrows(t: seq<Entry>, x: Entry, k: nat, condensed: Entry)
    requires k > 0
    ensures var older := CountBlocks(t);
      BlocksLeft(t + [x], k, condensed) == if x.kind != Research || 0 < older < k then BlocksLeft(t, k, condensed)
        else if older == 0 then [condensed] else BlocksLeft(t, k, condensed) + [x]
  {
    hide CountBlocks, Blocks;
    Grow(t, x);
    if x.kind == Research && k <= |Blocks(t)| {
      assert (Blocks(t) + [x])[k..] == Blocks(t)[k..] + [x];
    }
  }

  /** Nothing before the oldest block is touched, so that much of the cached prefix survives. */
  lemma {:induction false} CompactionKeepsThePrefix(t: seq<Entry>, k: nat, condensed: Entry, i: nat)
    requires i <= |t| && CountBlocks(t[..i]) == 0
    ensures t[..i] <= Compacted(t, k, condensed)
    ensures i == |t| ==> Compacted(t, k, condensed) == t
    decreases |t|
  {
    if t != [] {
      var init := t[..|t| - 1];
      if i == |t| {
        assert t[..i] == t && init[..|init|] == init;
        CompactionKeepsThePrefix(init, k, condensed, |init|);
        assert t == init + [t[|t| - 1]];
      } else {
        assert init[..i] == t[..i];
        CompactionKeepsThePrefix(init, k, condensed, i);
      }
    }
  }

  /** The oldest half, but at least one. */
  function Victims(n: nat): nat { if n / 2 > 1 then n / 2 else 1 }

  /** Four blocks or more shrink; with two or three, only the oldest block is summarised and their number stays. */
  lemma BlocksAfter(t: seq<Entry>, condensed: Entry)
    requires condensed.kind == Research && CountBlocks(t) >= 2
    ensures var n, left := CountBlocks(t), CountBlocks(Compacted(t, Victims(CountBlocks(t)), condensed));
      left == n - Victims(n) + 1 && left >= 2 && (left < n <==> n >= 4)
  {
    var n := CountBlocks(t);
    CompactionKeepsTheTalk(t, Victims(n), condensed);
    assert |Blocks(Compacted(t, Victims(n), condensed))| == CountBlocks(Compacted(t, Victims(n), condensed));
  }

  lemma PayloadsGrow(a: seq<Entry>, b: seq<Entry>, system: Payload)
    requires a <= b
    ensures [system] + Payloads(a) + [] <= [system] + Payloads(b) + []
  {
    assert Payloads(a) <= Payloads(b);
  }

  lemma TurnGrows(t: seq<Entry>, q: Entry, more: seq<Entry>, a: Entry)
    requires q.kind == Question && a.kind == Answer && (more == [] || (|more| == 1 && more[0].kind == Research))
    ensures t <= t + [q] + more + [a] && Talk(t + [q] + more + [a]) == Talk(t) + [q, a]
  {
    hide Talk, Blocks, CountBlocks;
    var t1 := t + [q];
    var t2 := t1 + more;
    Grow(t, q);
    if more == [] {
      assert t2 == t1;
    } else {
      assert t2 == t1 + [more[0]];
      Grow(t1, more[0]);
    }
    Grow(t2, a);
  }

  function RoleOf(role: string): L.Role {
    if role == "system" then L.System else if role == "assistant" then L.Assistant else L.User
  }

  /** The request as message objects, each its own. */
  method AsMessages(payloads: seq<Payload>) returns (work: seq<L.Message>)
    ensures |work| == |payloads| && NoDuplicates(work)
    ensures forall i :: 0 <= i < |work| ==>
      fresh(work[i]) && work[i].role == RoleOf(payloads[i].role) && work[i].content == payloads[i].content
  {
    work := [];
    for i := 0 to |payloads|
      invariant |work| == i && NoDuplicates(work)
      invariant forall j :: 0 <= j < i ==>
        fresh(work[j]) && work[j].role == RoleOf(payloads[j].role) && work[j].content == payloads[j].content
    {
      var m := new L.Message(RoleOf(payloads[i].role), payloads[i].content, "", false);
      work := work + [m];
    }
  }

  /** The research entry a turn adds for these blocks, if there are any. */
  function Block(blocks: seq<R.Block>): seq<Entry> {
    if blocks == [] then [] else [Entry(Research, R.BlocksText(blocks))]
  }

  class LoreSession {
    const systemPrompt: string
    const seen: R.KeySet
    var transcript: seq<Entry>
    var turns: nat
    var searches: nat
    var compactions: nat
    ghost var shown: seq<string>  // every excerpt put into the thread, in order

    /** No excerpt has been put in twice, and all of them are remembered. */
    ghost predicate Valid()
      reads this, seen
    { NoDuplicates(shown) && R.Members(shown) <= seen.keys && forall k :: k in seen.keys ==> !R.IsNote(k) }

    constructor (systemPrompt: string)
      ensures Valid() && this.systemPrompt == systemPrompt && transcript == [] && fresh(seen) && seen.keys == {}
      ensures turns == 0 && searches == 0 && compactions == 0 && shown == []
    {
      this.systemPrompt := systemPrompt;
      seen := new R.KeySet({});
      transcript, turns, searches, compactions, shown := [], 0, 0, 0, [];
    }

    /** `build_messages`: the request, with any passing scaffolding at its end. */
    function BuildMessages(extra: seq<Payload>): seq<Payload>
      reads this`transcript
    {
      [Payload("system", systemPrompt)] + Payloads(transcript) + extra
    }

    method AppendQuestion(question: string)
      modifies this`transcript
      ensures transcript == old(transcript) + [Entry(Question, question)]
    { transcript := transcript + [Entry(Question, question)]; }

    method AppendResearch(block: string)
      modifies this`transcript, this`searches
      ensures transcript == old(transcript) + [Entry(Research, block)] && searches == old(searches) + 1
    { transcript, searches := transcript + [Entry(Research, block)], searches + 1; }

    method AppendAnswer(answer: string)
      modifies this`transcript, this`turns
      ensures transcript == old(transcript) + [Entry(Answer, answer)] && turns == old(turns) + 1
    { transcript, turns := transcript + [Entry(Answer, answer)], turns + 1; }

    /** The end of a turn whose question stands at the end: the rendering of the tool messages, then the answer. */
    method Conclude(toolMessages: seq<R.Item>, answer: string)
      requires Valid()
      modifies this, seen
      ensures Valid() && shown == old(shown) + R.NewExcerpts(toolMessages, old(seen.keys))
      ensures seen.keys == R.Render(toolMessages, old(seen.keys), old(searches) + 1).1 && old(seen.keys) <= seen.keys
      ensures var blocks := R.Render(toolMessages, old(seen.keys), old(searches) + 1).0;
        && transcript == old(transcript) + Block(blocks) + [Entry(Answer, answer)]
        && R.Bodies(blocks) == R.Joined(R.Parts(toolMessages, old(seen.keys)))
        && searches == old(searches) + |Block(blocks)| && turns == old(turns) + 1 && compactions == old(compactions)
    {
      hide R.Render, R.NewExcerpts, R.Members, R.BlocksText, R.Bodies, R.Parts, NoDuplicates, R.IsNote;
      R.RenderShowsEachOnce(toolMessages, shown, seen.keys, searches + 1);
      R.KeysAreNoNotes(toolMessages, seen.keys, searches + 1);
      shown := shown + R.NewExcerpts(toolMessages, seen.keys);
      var blocks := R.RenderResearchBlocks(toolMessages, seen, searches);
      if blocks != [] { AppendResearch(R.BlocksText(blocks)); }
      AppendAnswer(answer);
    }

    /**
      One turn: the question, the rendering of what the searches found if any of it was
      new, the answer. `toolMessages` is what the tool rounds came back with. What the
      blocks hold was shown in no earlier turn, and is shown in this one once.
    */
    method Turn(question: string, toolMessages: seq<R.Item>, answer: string)
      requires Valid()
      modifies this, seen
      ensures Valid() && shown == old(shown) + R.Concat(R.Parts(toolMessages, old(seen.keys)))
      ensures seen.keys == R.Render(toolMessages, old(seen.keys), old(searches) + 1).1
      ensures var blocks := R.Render(toolMessages, old(seen.keys), old(searches) + 1).0;
        && transcript == old(transcript) + [Entry(Question, question)] + Block(blocks) + [Entry(Answer, answer)]
        && R.Bodies(blocks) == R.Joined(R.Parts(toolMessages, old(seen.keys)))
        && searches == old(searches) + |Block(blocks)| && turns == old(turns) + 1 && compactions == old(compactions)
      ensures old(BuildMessages([])) <= BuildMessages([]) && old(seen.keys) <= seen.keys
      ensures Talk(transcript) == Talk(old(transcript)) + [Entry(Question, question), Entry(Answer, answer)]
    {
      hide Talk, Payloads, R.Render, R.Members, R.BlocksText, R.Bodies, R.Parts, R.Concat, NoDuplicates, R.IsNote;
      ghost var was := transcript;
      AppendQuestion(question);
      ghost var blocks := R.Render(toolMessages, seen.keys, searches + 1).0;
      Conclude(toolMessages, answer);
      TurnGrows(was, Entry(Question, question), Block(blocks), Entry(Answer, answer));
      PayloadsGrow(was, transcript, Payload("system", systemPrompt));
    }

    /**
      `run_lore_followup` with tools allowed: the loop runs over the request and seeded
      with the thread's keys, and its tool messages are rendered against those keys. The
      blocks then hold exactly the excerpts left in live results, however often the loop
      condensed, and the thread remembers exactly what the loop had shown.
    */
    method FollowUp(question: string, extra: seq<Payload>, replies: seq<T.Reply>, used: seq<nat>,
                    summaries: seq<Option<string>>, compactAt: real, hardAt: real,
                    named: L.Message -> string, synthesised: string)
      returns (loop: T.ToolLoop, answer: string)
      requires Valid() && |used| == |replies| == |summaries|
      requires forall i :: 0 <= i < |replies| && replies[i].Calls? ==>
                 forall j :: 0 <= j < |replies[i].calls| ==> R.AllExcerpts(replies[i].calls[j].excerpts)
      modifies this, seen
      ensures Valid() && fresh(loop) && loop.Valid() && loop.seed == old(seen.keys)
      ensures seen.keys == loop.shown && shown == old(shown) + L.LiveExcerpts(loop.plan)
      ensures var blocks := R.Render(T.Items(loop.toolMessages, named), old(seen.keys), old(searches) + 1).0;
        && transcript == old(transcript) + [Entry(Question, question)] + Block(blocks) + [Entry(Answer, answer)]
        && R.ReadBack(blocks) == L.LiveExcerpts(loop.plan)
    {
      hide R.Render, R.NewExcerpts, R.Members, R.Bodies, R.Parts, R.Joined, R.ReadBack, R.AllExcerpts, NoDuplicates,
           L.LiveExcerpts, L.WellFormed, L.View, T.Exact, T.Items, T.ToolLoop.Valid;
      AppendQuestion(question);
      var direct;
      loop, direct := RunTools(BuildMessages(extra), replies, used, summaries, compactAt, hardAt);
      answer := if direct.Some? then direct.value else synthesised;
      RenderedLoop(loop, named);
      Conclude(T.Items(loop.toolMessages, named), answer);
    }

    lemma RenderedLoop(loop: T.ToolLoop, named: L.Message -> string)
      requires loop.Valid()
      ensures var items := T.Items(loop.toolMessages, named);
        && R.NewExcerpts(items, loop.seed) == L.LiveExcerpts(loop.plan)
        && R.Render(items, loop.seed, searches + 1).1 == loop.shown
        && R.ReadBack(R.Render(items, loop.seed, searches + 1).0) == L.LiveExcerpts(loop.plan)
    {
      hide R.Render, R.NewExcerpts, R.ReadBack, L.LiveExcerpts, L.WellFormed, L.View, T.Exact, T.Items;
      T.RenderingMatchesTheLoop(loop.plan, loop.shown, loop.seed, named, searches + 1);
    }

    /** `_run_tool_rounds` over a request, seeded with the thread's keys. */
    method RunTools(request: seq<Payload>, replies: seq<T.Reply>, used: seq<nat>, summaries: seq<Option<string>>,
                    compactAt: real, hardAt: real)
      returns (loop: T.ToolLoop, direct: Option<string>)
      requires |used| == |replies| == |summaries| && forall k :: k in seen.keys ==> !R.IsNote(k)
      requires forall i :: 0 <= i < |replies| && replies[i].Calls? ==>
                 forall j :: 0 <= j < |replies[i].calls| ==> R.AllExcerpts(replies[i].calls[j].excerpts)
      ensures fresh(loop) && loop.Valid() && loop.seed == seen.keys
    {
      hide R.AllExcerpts, R.IsNote, NoDuplicates, L.LiveExcerpts, L.WellFormed, L.View, T.Exact;
      var work := AsMessages(request);
      loop := new T.ToolLoop(work, seen.keys);
      ghost var rounds;
      direct, rounds := loop.Run(replies, used, summaries, compactAt, hardAt);
    }

    /** `research_indices` */
    method ResearchIndices() returns (indices: seq<nat>)
      ensures BlocksAt(transcript, indices, |transcript|)
    {
      hide BlocksAt;
      indices := [];
      NoBlocks(transcript);
      for i := 0 to |transcript|
        invariant BlocksAt(transcript, indices, i)
      {
        BlocksAtGrows(transcript, indices, i);
        if transcript[i].kind == Research { indices := indices + [i]; }
      }
    }

    /** `_compact_session`: `summarised` is what the summariser gave, None when it failed. */
    method CompactSession(summarised: Option<string>) returns (changed: bool)
      modifies this`transcript, this`compactions
      ensures changed == (CountBlocks(old(transcript)) >= 2 && summarised.Some?)
      ensures !changed ==> transcript == old(transcript) && compactions == old(compactions)
      ensures changed ==> (compactions == old(compactions) + 1
        && transcript == Compacted(old(transcript), Victims(CountBlocks(old(transcript))),
             Entry(Research, R.CondensedContent(compactions, "earlier searches", summarised.value))))
    {
      hide R.CondensedContent, CountBlocks, Compacted;
      var indices := ResearchIndices();
      assert transcript[..|transcript|] == transcript;
      if |indices| < 2 { return false; }
      var victims := indices[..Victims(|indices|)];
      if summarised.None? { return false; }
      compactions := compactions + 1;
      var condensed := Entry(Research, R.CondensedContent(compactions, "earlier searches", summarised.value));
      transcript := Rewrite(transcript, victims, condensed, indices);
      return true;
    }
  }

  /** The first n entries have exactly these blocks, each found at its place in the count. */
  predicate BlocksAt(t: seq<Entry>, indices: seq<nat>, n: nat)
    requires n <= |t|
  {
    && |indices| == CountBlocks(t[..n])
    && (forall m :: 0 <= m < |indices| ==> indices[m] < n)
    && (forall m :: 0 <= m < |indices| ==> t[indices[m]].kind == Research && CountBlocks(t[..indices[m]]) == m)
    && (forall j :: 0 <= j < n && t[j].kind == Research ==>
          (CountBlocks(t[..j]) < |indices| && indices[CountBlocks(t[..j])] == j))
  }

  lemma NoBlocks(t: seq<Entry>)
    ensures BlocksAt(t, [], 0)
  {
    assert t[..0] == [];
  }

  lemma BlocksAtGrows(t: seq<Entry>, indices: seq<nat>, i: nat)
    requires i < |t| && BlocksAt(t, indices, i)
    ensures BlocksAt(t, if t[i].kind == Research then indices + [i] else indices, i + 1)
  {
    hide CountBlocks;
    CountStep(t, i);
  }

  lemma CountStep(t: seq<Entry>, i: nat)
    requires i < |t|
    ensures CountBlocks(t[..i + 1]) == CountBlocks(t[..i]) + if t[i].kind == Research then 1 else 0
  {
    assert t[..i + 1][..i] == t[..i];
  }

  /** The rewriting loop. */
  method Rewrite(t: seq<Entry>, victims: seq<nat>, condensed: Entry, ghost indices: seq<nat>) returns (keep: seq<Entry>)
    requires BlocksAt(t, indices, |t|) && 0 < |victims| <= |indices| && victims == indices[..|victims|]
    ensures keep == Compacted(t, |victims|, condensed)
  {
    hide BlocksAt, CountBlocks;
    keep := [];
    for i := 0 to |t|
      invariant keep == Compacted(t[..i], |victims|, condensed)
    {
      assert t[..i + 1][..i] == t[..i];
      VictimIff(t, indices, |victims|, i);
      if i == victims[0] {
        keep := keep + [condensed];
      } else if i in victims {
        assert keep + [] == keep;
        continue;
      } else {
        keep := keep + [t[i]];
      }
    }
    assert t[..|t|] == t;
  }

  /** An entry is a victim exactly when it is research with fewer than k older blocks. */
  lemma VictimIff(t: seq<Entry>, indices: seq<nat>, k: nat, i: nat)
    requires i < |t| && 0 < k <= |indices| && BlocksAt(t, indices, |t|)
    ensures i in indices[..k] <==> t[i].kind == Research && CountBlocks(t[..i]) < k
    ensures i == indices[0] <==> t[i].kind == Research && CountBlocks(t[..i]) == 0
  {
    hide CountBlocks;
    if t[i].kind == Research && CountBlocks(t[..i]) < k {
      assert indices[..k][CountBlocks(t[..i])] == i;
    }
  }
}
