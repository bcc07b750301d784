/**
  The /lore tool-calling loop: two lists of message objects that share identities,
  are appended to and condensed in place, and a set of shown excerpt keys that must
  stay in step with them.
*/
module LoreLoop {
  import opened Wrappers
  import opened Excerpts
  import opened Research

  datatype Role = System | User | Assistant | Call | Tool

  /** One message dict; the lists hold references, so two equal messages are still two. */
  class Message {
    const role: Role
    const content: string
    const reasoning: string
    const condensed: bool

    constructor (role: Role, content: string, reasoning: string, condensed: bool)
      ensures this.role == role && this.content == content && this.reasoning == reasoning && this.condensed == condensed
    {
      this.role, this.content, this.reasoning, this.condensed := role, content, reasoning, condensed;
    }
  }

  /**
    What both lists are views of: messages of the conversation itself, a tool call
    with its result, or a summary standing for condensed results (untagged in the
    live conversation, tagged in tool_messages).
  */
  datatype Entry = Base(m: Message) | Pair(call: Message, result: Message) | Summary(plain: Message, tagged: Message)

  /** The live conversation (live) or tool_messages (not live) as laid out by a plan. */
  ghost function View(plan: seq<Entry>, live: bool): seq<Message> {
    if plan == [] then [] else ViewOne(plan[0], live) + View(plan[1..], live)
  }

  ghost function ViewOne(e: Entry, live: bool): seq<Message> {
    match e
    case Base(m) => if live then [m] else []
    case Pair(c, r) => [c, r]
    case Summary(p, t) => if live then [p] else [t]
  }

  ghost predicate WellRoled(e: Entry) {
    match e
    case Base(m) => m.role != Call && m.role != Tool
    case Pair(c, r) => c.role == Call && r.role == Tool && !c.condensed && !r.condensed
    case Summary(p, t) => p.role == User && t.role == User && t.condensed && !p.condensed && p.content == t.content
  }

  ghost predicate WellFormed(plan: seq<Entry>) {
    && (forall e :: e in plan ==> WellRoled(e))
    && NoDuplicates(View(plan, true)) && NoDuplicates(View(plan, false))
  }

  /** Every call is directly followed by a result and every result directly preceded by a call. */
  ghost predicate Paired(list: seq<Message>) {
    && (forall i :: 0 <= i < |list| && list[i].role == Call ==> i + 1 < |list| && list[i + 1].role == Tool)
    && (forall i :: 0 <= i < |list| && list[i].role == Tool ==> i > 0 && list[i - 1].role == Call)
  }

  /** The excerpts standing verbatim in live tool results, in order. */
  ghost function LiveExcerpts(plan: seq<Entry>): seq<string> {
    if plan == [] then []
    else (if plan[0].Pair? then Excerpted(SplitChunks(plan[0].result.content)) else []) + LiveExcerpts(plan[1..])
  }

  // -- views of concatenated plans --

  lemma {:induction false} ViewConcat(a: seq<Entry>, b: seq<Entry>, live: bool)
    ensures View(a + b, live) == View(a, live) + View(b, live)
  {
    if a == [] {
      assert a + b == b;
    } else {
      assert (a + b)[1..] == a[1..] + b;
      ViewConcat(a[1..], b, live);
    }
  }

  lemma {:induction false} LiveConcat(a: seq<Entry>, b: seq<Entry>)
    ensures LiveExcerpts(a + b) == LiveExcerpts(a) + LiveExcerpts(b)
  {
    hide SplitChunks, Excerpted;
    if a == [] {
      assert a + b == b;
    } else {
      assert (a + b)[1..] == a[1..] + b;
      LiveConcat(a[1..], b);
    }
  }

  lemma {:induction false} ViewIsPaired(plan: seq<Entry>, live: bool)
    requires forall e :: e in plan ==> WellRoled(e)
    ensures Paired(View(plan, live))
  {
    hide Paired;
    if plan == [] {
      NothingPaired();
    } else {
      ViewIsPaired(plan[1..], live);
      assert WellRoled(plan[0]);
      PairedAfter(ViewOne(plan[0], live), View(plan[1..], live));
    }
  }

  lemma NothingPaired()
    ensures Paired([])
  {
  }

  lemma PairedAfter(one: seq<Message>, rest: seq<Message>)
    requires Paired(rest)
    requires (|one| == 2 && one[0].role == Call && one[1].role == Tool)
      || (|one| <= 1 && forall m :: m in one ==> m.role != Call && m.role != Tool)
    ensures Paired(one + rest)
  {
    assert forall i :: 0 <= i < |rest| ==> (one + rest)[|one| + i] == rest[i];
  }

  // -- compaction on the plan --

  /** The messages of the oldest k pairs. */
  ghost function OldestPairs(plan: seq<Entry>, k: nat): seq<Message> {
    if plan == [] || k == 0 then []
    else if plan[0].Pair? then [plan[0].call, plan[0].result] + OldestPairs(plan[1..], k - 1)
    else OldestPairs(plan[1..], k)
  }

  ghost function RemovePairs(plan: seq<Entry>, k: nat): seq<Entry> {
    if plan == [] || k == 0 then plan
    else if plan[0].Pair? then RemovePairs(plan[1..], k - 1)
    else [plan[0]] + RemovePairs(plan[1..], k)
  }

  ghost function CountPairs(plan: seq<Entry>): nat {
    if plan == [] then 0 else (if plan[0].Pair? then 1 else 0) + CountPairs(plan[1..])
  }

  /** How many entries stand before the oldest pair. */
  ghost function Lead(plan: seq<Entry>): nat
    ensures Lead(plan) <= |plan|
  {
    if plan == [] || plan[0].Pair? then 0 else 1 + Lead(plan[1..])
  }

  /** Condensing the oldest k pairs: drop them and put the summary, if any, where the first one was. */
  ghost function Condense(plan: seq<Entry>, k: nat, summary: seq<Entry>): seq<Entry> {
    plan[..Lead(plan)] + summary + RemovePairs(plan[Lead(plan)..], k)
  }

  // -- what the code computes on a list --

  /** Where the tool results are, numbering from `off`. */
  function ToolIndices(list: seq<Message>, off: nat): seq<nat> {
    if list == [] then [] else (if list[0].role == Tool then [off] else []) + ToolIndices(list[1..], off + 1)
  }

  /** The slices `tool_messages[i - 1 : i + 1]` for each index. */
  function SlicesAt(list: seq<Message>, indices: seq<nat>): seq<Message>
    requires forall j :: 0 <= j < |indices| ==> 1 <= indices[j] < |list|
  {
    if indices == [] then [] else list[indices[0] - 1..indices[0] + 1] + SlicesAt(list, indices[1..])
  }

  /** The list without the victims, by identity. */
  function Keep(target: seq<Message>, victims: set<Message>): seq<Message> {
    if target == [] then [] else (if target[0] in victims then [] else [target[0]]) + Keep(target[1..], victims)
  }

  /** Where the first victim is; the length when there is none. */
  function FirstOf(target: seq<Message>, victims: set<Message>): nat {
    if target == [] || target[0] in victims then 0 else 1 + FirstOf(target[1..], victims)
  }

  function Identities(list: seq<Message>): set<Message> { set m | m in list }

  // -- the two agree --

  lemma PairIndices(c: Message, r: Message, tail: seq<Message>, off: nat)
    requires c.role != Tool && r.role == Tool
    ensures ToolIndices([c, r] + tail, off) == [off + 1] + ToolIndices(tail, off + 2)
  {
    assert ([c, r] + tail)[1..] == [r] + tail && ([r] + tail)[1..] == tail;
  }

  ghost predicate InRange(indices: seq<nat>, lo: nat, hi: nat) {
    forall j :: 0 <= j < |indices| ==> lo <= indices[j] < hi
  }

  /** The first k tool indices of this list, which starts `before` the plan's view, slice out the oldest k pairs. */
  ghost predicate Located(plan: seq<Entry>, before: seq<Message>, k: nat) {
    var list := before + View(plan, false);
    var indices := ToolIndices(View(plan, false), |before|);
    && |indices| == CountPairs(plan) && k <= |indices|
    && InRange(indices[..k], |before| + 1, |list|)
    && SlicesAt(list, indices[..k]) == OldestPairs(plan, k)
  }

  lemma LocatedPair(plan: seq<Entry>, before: seq<Message>, k: nat)
    requires plan != [] && plan[0].Pair? && WellRoled(plan[0]) && k <= CountPairs(plan)
    requires Located(plan[1..], before + ViewOne(plan[0], false), if k > 0 then k - 1 else 0)
    ensures Located(plan, before, k)
  {
    var one, tail := ViewOne(plan[0], false), View(plan[1..], false);
    var list := before + View(plan, false);
    assert list == (before + one) + tail;
    PairIndices(plan[0].call, plan[0].result, tail, |before|);
    hide ToolIndices;
    var indices, later := ToolIndices(View(plan, false), |before|), ToolIndices(tail, |before + one|);
    assert indices == [|before| + 1] + later;
    if k > 0 {
      assert indices[..k] == [|before| + 1] + later[..k - 1];
      assert indices[..k][1..] == later[..k - 1];
      assert list[|before|..|before| + 2] == one;
    } else {
      assert indices[..k] == [];
    }
  }

  lemma LocatedOther(plan: seq<Entry>, before: seq<Message>, k: nat)
    requires plan != [] && !plan[0].Pair? && WellRoled(plan[0]) && k <= CountPairs(plan)
    requires Located(plan[1..], before + ViewOne(plan[0], false), k)
    ensures Located(plan, before, k)
  {
    hide SlicesAt;
    var one, tail := ViewOne(plan[0], false), View(plan[1..], false);
    assert before + View(plan, false) == (before + one) + tail;
    assert ToolIndices(View(plan, false), |before|) == ToolIndices(tail, |before + one|) by {
      hide SlicesAt, OldestPairs, CountPairs;
      if one == [] {
        assert View(plan, false) == tail;
      } else {
        assert View(plan, false)[1..] == tail;
      }
    }
    OtherFirst(plan, k);
  }

  lemma OtherFirst(plan: seq<Entry>, k: nat)
    requires plan != [] && !plan[0].Pair?
    ensures OldestPairs(plan, k) == OldestPairs(plan[1..], k) && CountPairs(plan) == CountPairs(plan[1..])
  {
  }

  /** Indexing into tool_messages finds exactly the oldest pairs. */
  lemma {:induction false} SlicesAreOldestPairs(plan: seq<Entry>, before: seq<Message>, k: nat)
    requires forall e :: e in plan ==> WellRoled(e)
    requires k <= CountPairs(plan)
    ensures Located(plan, before, k)
    decreases |plan|
  {
    if plan == [] {
    } else if plan[0].Pair? {
      SlicesAreOldestPairs(plan[1..], before + ViewOne(plan[0], false), if k > 0 then k - 1 else 0);
      LocatedPair(plan, before, k);
    } else {
      SlicesAreOldestPairs(plan[1..], before + ViewOne(plan[0], false), k);
      LocatedOther(plan, before, k);
    }
  }

  lemma {:induction false} OldestAreInView(plan: seq<Entry>, k: nat, live: bool)
    ensures forall m :: m in OldestPairs(plan, k) ==> m in View(plan, live)
  {
    if plan != [] && k > 0 {
      var k' := if plan[0].Pair? then k - 1 else k;
      OldestAreInView(plan[1..], k', live);
      forall m | m in OldestPairs(plan, k) ensures m in View(plan, live) {
        assert m in OldestPairs(plan[1..], k') || m in ViewOne(plan[0], live);
      }
    }
  }

  lemma TailFacts(plan: seq<Entry>, live: bool)
    requires plan != [] && NoDuplicates(View(plan, live))
    ensures NoDuplicates(View(plan[1..], live))
    ensures forall m :: m in ViewOne(plan[0], live) ==> m !in View(plan[1..], live)
  {
    var one, tail := ViewOne(plan[0], live), View(plan[1..], live);
    assert forall i :: 0 <= i < |tail| ==> View(plan, live)[|one| + i] == tail[i];
    assert forall i :: 0 <= i < |one| ==> View(plan, live)[i] == one[i];
  }

  lemma {:induction false} KeepUnrelated(target: seq<Message>, victims: set<Message>, more: set<Message>)
    requires Identities(target) !! more
    ensures Keep(target, victims + more) == Keep(target, victims)
  {
    if target != [] {
      assert target[0] in Identities(target);
      assert forall m :: m in target[1..] ==> m in target;
      KeepUnrelated(target[1..], victims, more);
    }
  }

  lemma {:induction false} KeepAll(target: seq<Message>)
    ensures Keep(target, {}) == target
  {
    if target != [] { KeepAll(target[1..]); }
  }

  lemma {:induction false} KeepConcat(a: seq<Message>, b: seq<Message>, victims: set<Message>)
    ensures Keep(a + b, victims) == Keep(a, victims) + Keep(b, victims)
  {
    if a == [] {
      assert a + b == b;
    } else {
      assert (a + b)[1..] == a[1..] + b;
      KeepConcat(a[1..], b, victims);
    }
  }

  lemma KeepAfterPair(c: Message, r: Message, tail: seq<Message>, victims: set<Message>)
    requires c !in tail && r !in tail
    ensures Keep([c, r] + tail, victims + {c, r}) == Keep(tail, victims)
  {
    assert ([c, r] + tail)[1..] == [r] + tail && ([r] + tail)[1..] == tail;
    KeepUnrelated(tail, victims, {c, r});
  }

  /** Filtering a list by identity removes exactly the oldest pairs from its plan. */
  lemma {:induction false} KeepRemovesPairs(plan: seq<Entry>, k: nat, live: bool)
    requires NoDuplicates(View(plan, live))
    ensures Keep(View(plan, live), Identities(OldestPairs(plan, k))) == View(RemovePairs(plan, k), live)
  {
    if plan == [] || k == 0 {
      assert Identities(OldestPairs(plan, k)) == {};
      KeepAll(View(plan, live));
    } else {
      var e, rest := plan[0], plan[1..];
      var one, tail := ViewOne(e, live), View(rest, live);
      var k' := if e.Pair? then k - 1 else k;
      var victims := Identities(OldestPairs(rest, k'));
      TailFacts(plan, live);
      KeepRemovesPairs(rest, k', live);
      if e.Pair? {
        assert Identities(OldestPairs(plan, k)) == victims + {e.call, e.result};
        KeepAfterPair(e.call, e.result, tail, victims);
      } else {
        OldestAreInView(rest, k', live);
        KeepConcat(one, tail, victims);
        KeepUnrelatedOne(one, victims);
        assert RemovePairs(plan, k)[1..] == RemovePairs(rest, k);
      }
    }
  }

  lemma {:induction false} KeepUnrelatedOne(one: seq<Message>, victims: set<Message>)
    requires |one| <= 1 && Identities(one) !! victims
    ensures Keep(one, victims) == one
  {
    if one != [] { assert one[0] in Identities(one) && one[1..] == []; }
  }

  /** The first victim stands right after the entries that lead the plan. */
  lemma {:induction false} FirstIsAfterLead(plan: seq<Entry>, k: nat, live: bool)
    requires NoDuplicates(View(plan, live)) && k > 0 && CountPairs(plan) > 0
    ensures FirstOf(View(plan, live), Identities(OldestPairs(plan, k))) == |View(plan[..Lead(plan)], live)|
    ensures |View(plan[..Lead(plan)], live)| < |View(plan, live)|
  {
    var e, rest := plan[0], plan[1..];
    if e.Pair? {
      assert e.call in OldestPairs(plan, k);
      assert plan[..Lead(plan)] == [];
    } else {
      var one := ViewOne(e, live);
      TailFacts(plan, live);
      FirstIsAfterLead(rest, k, live);
      OldestAreInView(rest, k, live);
      assert plan[..Lead(plan)] == [e] + rest[..Lead(rest)];
      assert ([e] + rest[..Lead(rest)])[1..] == rest[..Lead(rest)];
      var victims := Identities(OldestPairs(rest, k));
      assert OldestPairs(plan, k) == OldestPairs(rest, k);
      assert forall m :: m in one ==> m !in victims;
      if one == [] {
        assert View(plan, live) == View(rest, live);
      } else {
        assert View(plan, live)[1..] == View(rest, live) && one[0] in one;
        assert FirstOf(View(plan, live), victims) == 1 + FirstOf(View(rest, live), victims);
      }
    }
  }

  lemma {:induction false} LeadHasNoPairs(plan: seq<Entry>, k: nat)
    ensures RemovePairs(plan, k) == plan[..Lead(plan)] + RemovePairs(plan[Lead(plan)..], k)
  {
    if plan != [] && !plan[0].Pair? && k > 0 {
      LeadHasNoPairs(plan[1..], k);
      assert plan[..Lead(plan)] == [plan[0]] + plan[1..][..Lead(plan[1..])];
      assert plan[Lead(plan)..] == plan[1..][Lead(plan[1..])..];
    } else if k == 0 {
      assert plan == plan[..Lead(plan)] + plan[Lead(plan)..];
    }
  }

  /** Filter, then insert where the first victim was: what one list of the code becomes. */
  function Rewritten(target: seq<Message>, victims: set<Message>, insert: seq<Message>): seq<Message> {
    var first := FirstOf(target, victims);
    var kept := Keep(target, victims);
    if first <= |kept| then kept[..first] + insert + kept[first..] else kept
  }

  /** The rewrite of either list is the same condensing of their common plan, so the insert splits no pair. */
  lemma RewriteIsCondense(plan: seq<Entry>, k: nat, summary: seq<Entry>, live: bool)
    requires NoDuplicates(View(plan, live)) && k > 0 && CountPairs(plan) > 0
    ensures Rewritten(View(plan, live), Identities(OldestPairs(plan, k)), View(summary, live))
         == View(Condense(plan, k, summary), live)
  {
    var l := Lead(plan);
    var lead, rest := plan[..l], RemovePairs(plan[l..], k);
    KeepRemovesPairs(plan, k, live);
    FirstIsAfterLead(plan, k, live);
    LeadHasNoPairs(plan, k);
    ViewConcat(lead, rest, live);
    ViewConcat(lead, summary, live);
    ViewConcat(lead + summary, rest, live);
  }

  lemma {:induction false} RemovedExcerpts(plan: seq<Entry>, k: nat)
    ensures LiveExcerpts(plan) == PairExcerpts(OldestPairs(plan, k)) + LiveExcerpts(RemovePairs(plan, k))
  {
    hide SplitChunks, Excerpted;
    if plan == [] || k == 0 {
    } else if plan[0].Pair? {
      RemovedExcerpts(plan[1..], k - 1);
      var older := OldestPairs(plan[1..], k - 1);
      var both := [plan[0].call, plan[0].result] + older;
      assert both[1..] == [plan[0].result] + older && both[2..] == older;
    } else {
      RemovedExcerpts(plan[1..], k);
      assert ([plan[0]] + RemovePairs(plan[1..], k))[1..] == RemovePairs(plan[1..], k);
    }
  }

  /** The excerpts in the results of a list of alternating calls and results. */
  ghost function PairExcerpts(list: seq<Message>): seq<string> {
    if |list| < 2 then [] else Excerpted(SplitChunks(list[1].content)) + PairExcerpts(list[2..])
  }
}
