/**
  Cutting model output into posts: at paragraph or line breaks where there are any,
  while it streams or all at once. Case folding is ASCII.
*/
module Streaming {
  import opened Wrappers
  import opened Excerpts
  import opened Transcript

  const MAX_MESSAGE_LENGTH := 2000

  // -- where to cut --

  predicate Occurs(s: string, part: string, i: nat) { i + |part| <= |s| && s[i..i + |part|] == part }

  /** `rfind`: the last occurrence before position `n`. */
  function LastBefore(s: string, part: string, n: nat): (r: Option<nat>)
    ensures r.Some? ==> r.value < n && Occurs(s, part, r.value) && forall j :: r.value < j < n ==> !Occurs(s, part, j)
    ensures r.None? ==> forall j :: 0 <= j < n ==> !Occurs(s, part, j)
  {
    if n == 0 then None else if Occurs(s, part, n - 1) then Some(n - 1) else LastBefore(s, part, n - 1)
  }

  /** `find_split_boundary` */
  function FindSplitBoundary(buffer: string, limit: nat): (i: nat)
    ensures i <= |buffer| && i <= limit && (0 < limit && buffer != "" ==> 0 < i)
    ensures |buffer| <= limit ==> i == |buffer|
  {
    if |buffer| <= limit then |buffer|
    else
      var range := buffer[..limit];
      match LastBefore(range, "\n\n", limit)
      case Some(i) => i + 2
      case None =>
        match LastBefore(range, "\n", limit)
        case Some(i) => i + 1
        case None => limit
  }

  lemma OccursInRange(buffer: string, limit: nat, part: string, i: nat)
    requires limit <= |buffer| && (part == "\n" || part == "\n\n")
    ensures i + |part| <= limit ==> (Occurs(buffer[..limit], part, i) <==> buffer[i..i + |part|] == part)
    ensures i < limit && part == "\n" ==> (Occurs(buffer[..limit], part, i) <==> buffer[i] == '\n')
    ensures Occurs(buffer[..limit], part, i) ==> buffer[i] == '\n' && buffer[i + |part| - 1] == '\n'
  {
    if i + |part| <= limit {
      var t := buffer[i..i + |part|];
      assert buffer[..limit][i..i + |part|] == t && t[0] == buffer[i] && t[|part| - 1] == buffer[i + |part| - 1];
      assert part == "\n" ==> t == [buffer[i]];
    }
  }

  /**
    A text over the limit is cut right after its last blank line that fits, else its last
    newline, else at the limit.
  */
  lemma CutsAtTheLastBreak(buffer: string, limit: nat, i: nat)
    requires |buffer| > limit && i < limit
    ensures var cut := FindSplitBoundary(buffer, limit);
      && (i + 1 < limit && buffer[i..i + 2] == "\n\n" ==> cut >= i + 2 && buffer[cut - 2..cut] == "\n\n")
      && (buffer[i] == '\n' ==> cut > 0 && buffer[cut - 1] == '\n')
      && (buffer[i] == '\n' && cut <= i ==> cut >= 2 && buffer[cut - 2..cut] == "\n\n")
  {
    hide LastBefore;
    var range := buffer[..limit];
    OccursInRange(buffer, limit, "\n", i);
    OccursInRange(buffer, limit, "\n\n", i);
    var p := LastBefore(range, "\n\n", limit);
    if p.Some? {
      OccursInRange(buffer, limit, "\n\n", p.value);
    } else {
      var q := LastBefore(range, "\n", limit);
      if q.Some? { OccursInRange(buffer, limit, "\n", q.value); }
    }
  }

  // -- posts and the whitespace between them --

  predicate Blank(s: string) { forall i :: 0 <= i < |s| ==> IsSpace(s[i]) }

  predicate AllBlank(gaps: seq<string>) { forall i :: 0 <= i < |gaps| ==> Blank(gaps[i]) }

  /** The posts with a gap before, between and after them. */
  function Woven(gaps: seq<string>, posts: seq<string>): string
    requires |gaps| == |posts| + 1
  {
    if posts == [] then gaps[0] else gaps[0] + posts[0] + Woven(gaps[1..], posts[1..])
  }

  lemma {:induction false} WovenMore(gaps: seq<string>, posts: seq<string>, post: string, gap: string)
    requires |gaps| == |posts| + 1
    ensures Woven(gaps + [gap], posts + [post]) == Woven(gaps, posts) + post + gap
  {
    if posts == [] {
      assert (gaps + [gap])[1..] == [gap] && (posts + [post])[1..] == [];
    } else {
      assert (gaps + [gap])[1..] == gaps[1..] + [gap] && (posts + [post])[1..] == posts[1..] + [post];
      WovenMore(gaps[1..], posts[1..], post, gap);
    }
  }

  function Widen(gaps: seq<string>, gap: string): seq<string>
    requires gaps != []
  {
    gaps[..|gaps| - 1] + [gaps[|gaps| - 1] + gap]
  }

  lemma {:induction false} WovenWider(gaps: seq<string>, posts: seq<string>, gap: string)
    requires |gaps| == |posts| + 1
    ensures Woven(Widen(gaps, gap), posts) == Woven(gaps, posts) + gap
  {
    if posts != [] {
      assert Widen(gaps, gap)[1..] == Widen(gaps[1..], gap);
      WovenWider(gaps[1..], posts[1..], gap);
    }
  }

  /** `lstrip("\n")` */
  function LStripNl(s: string): string { s[Newlines(s)..] }

  /** How many newlines the text starts with. */
  function Newlines(s: string): (k: nat)
    ensures k <= |s| && (k < |s| ==> s[k] != '\n') && forall i :: 0 <= i < k ==> s[i] == '\n'
  {
    if s == "" || s[0] != '\n' then 0 else 1 + Newlines(s[1..])
  }

  predicate Suffix(a: string, s: string) { |a| <= |s| && a == s[|s| - |a|..] }

  lemma SuffixOfSuffix(a: string, b: string, s: string)
    requires Suffix(a, b) && Suffix(b, s)
    ensures Suffix(a, s)
  {
    forall k | 0 <= k < |a| ensures a[k] == s[|s| - |a| + k] { assert a[k] == b[|b| - |a| + k]; }
  }

  /** What one cut makes of a buffer: a post, and what is left. */
  function PostOf(buffer: string, limit: nat): (post: string)
    ensures |post| <= limit
  {
    RStrip(buffer[..FindSplitBoundary(buffer, limit)])
  }

  function RestOf(buffer: string, limit: nat): (rest: string)
    ensures |rest| <= |buffer| && (0 < limit && buffer != "" ==> |rest| < |buffer|)
    ensures Suffix(rest, buffer) && (rest != "" ==> rest[0] != '\n')
  {
    var after := buffer[FindSplitBoundary(buffer, limit)..];
    assert Suffix(after, buffer) && Suffix(LStripNl(after), after);
    SuffixOfSuffix(LStripNl(after), after, buffer);
    LStripNl(after)
  }

  lemma Rejoin(s: string, k: nat)
    requires k <= |s|
    ensures s == s[..k] + s[k..]
  {
  }

  lemma RStripLoses(s: string) returns (gap: string)
    ensures s == RStrip(s) + gap && Blank(gap)
    ensures RStrip(s) == "" <==> Blank(s)
  {
    hide IsSpace;
    var r := RStrip(s);
    gap := s[|r|..];
    if r != "" { assert s[|r| - 1] == r[|r| - 1]; }
  }

  lemma LStripLoses(s: string) returns (lead: string)
    ensures s == lead + LStrip(s) && Blank(lead)
  {
    lead := s[..|s| - |LStrip(s)|];
    hide IsSpace, LStrip;
    Rejoin(s, |s| - |LStrip(s)|);
  }

  /** A cut only loses whitespace: after the post, and newlines at the start of the rest. */
  lemma CutLosesBlanks(buffer: string, limit: nat) returns (gap: string)
    ensures buffer == PostOf(buffer, limit) + gap + RestOf(buffer, limit) && Blank(gap)
  {
    hide IsSpace, RStrip, LStripNl, FindSplitBoundary, Blank;
    var cut := FindSplitBoundary(buffer, limit);
    var piece, after := buffer[..cut], buffer[cut..];
    var trail := RStripLoses(piece);
    var newlines := LStripNlLoses(after);
    gap := trail + newlines;
    Rejoin(buffer, cut);
    BlankConcat(trail, newlines);
    Regroup(RStrip(piece), trail, newlines, LStripNl(after));
  }

  lemma NewlineIsSpace()
    ensures IsSpace('\n')
  {
  }

  lemma LStripNlLoses(s: string) returns (lead: string)
    ensures s == lead + LStripNl(s) && Blank(lead)
  {
    hide IsSpace, Newlines;
    lead := s[..Newlines(s)];
    Rejoin(s, Newlines(s));
    assert IsSpace('\n') by { NewlineIsSpace(); }
  }

  lemma BlankConcat(a: string, b: string)
    requires Blank(a) && Blank(b)
    ensures Blank(a + b)
  {
    hide IsSpace;
  }

  lemma Regroup(a: string, b: string, c: string, d: string)
    ensures (a + b) + (c + d) == a + (b + c) + d
  {
  }

  // -- all at once --

  function Split(text: string, limit: nat): seq<string>
    requires limit > 0
    decreases |text|
  {
    if text == "" then [] else if |text| <= limit then [text]
    else [PostOf(text, limit)] + Split(RestOf(text, limit), limit)
  }

  /** `split_message` */
  method SplitMessage(text: string, limit: nat) returns (chunks: seq<string>)
    requires limit > 0
    ensures chunks == Split(text, limit)
  {
    hide PostOf, RestOf, FindSplitBoundary;
    chunks := [];
    var buffer := text;
    while buffer != ""
      invariant chunks + Split(buffer, limit) == Split(text, limit)
      decreases |buffer|
    {
      if |buffer| <= limit {
        chunks := chunks + [buffer];
        return;
      }
      var post, rest := PostOf(buffer, limit), RestOf(buffer, limit);
      assert chunks + ([post] + Split(rest, limit)) == chunks + [post] + Split(rest, limit);
      chunks, buffer := chunks + [post], rest;
    }
  }

  /** Nothing but whitespace at the cuts is lost, and every chunk is within the limit. */
  lemma {:induction false} SplitCoversTheText(text: string, limit: nat) returns (gaps: seq<string>)
    requires limit > 0
    ensures |gaps| == |Split(text, limit)| + 1 && AllBlank(gaps) && text == Woven(gaps, Split(text, limit))
    ensures forall i :: 0 <= i < |Split(text, limit)| ==> |Split(text, limit)[i]| <= limit
    ensures Split(text, limit) == [] <==> text == ""
    decreases |text|
  {
    hide PostOf, RestOf, Suffix, Blank;
    BlankNothing();
    var chunks := Split(text, limit);
    if text == "" {
      gaps := [""];
    } else if |text| <= limit {
      gaps := ["", ""];
      assert gaps[1..] == [""] && chunks[1..] == [];
    } else {
      var gap := CutLosesBlanks(text, limit);
      var more := SplitCoversTheText(RestOf(text, limit), limit);
      BlankConcat(gap, more[0]);
      gaps := ["", gap + more[0]] + more[1..];
      assert chunks[1..] == Split(RestOf(text, limit), limit);
      assert gaps[1..] == [gap + more[0]] + more[1..];
      WovenLead(gap, more, chunks[1..]);
    }
  }

  lemma BlankNothing()
    ensures Blank("")
  {
  }

  lemma WovenLead(gap: string, gaps: seq<string>, posts: seq<string>)
    requires |gaps| == |posts| + 1
    ensures Woven([gap + gaps[0]] + gaps[1..], posts) == gap + Woven(gaps, posts)
  {
    var lead := [gap + gaps[0]] + gaps[1..];
    assert lead[1..] == gaps[1..];
  }

  // -- empty chunks --

  /** What is left of the text when chunk i is cut. */
  function Remaining(text: string, limit: nat, i: nat): string
    requires limit > 0 && i < |Split(text, limit)|
    decreases |text|
  {
    if i == 0 then text else Remaining(RestOf(text, limit), limit, i - 1)
  }

  /** Where the leading whitespace ends. */
  function Indent(s: string): nat { |s| - |LStrip(s)| }

  /**
    The text opens with whitespace that fills the window of one chunk, or that holds
    the break it is cut at: all its blank lines if there are any, else all its newlines.
  */
  predicate StartsBlank(s: string, limit: nat)
    requires limit <= |s|
  {
    var window := s[..limit];
    || Indent(s) >= limit
    || if exists i | 0 <= i < limit :: Occurs(window, "\n\n", i)
       then forall i :: 0 <= i < limit && Occurs(window, "\n\n", i) ==> i < Indent(s)
       else
         && (exists i | 0 <= i < limit :: window[i] == '\n')
         && forall i :: 0 <= i < limit && window[i] == '\n' ==> i < Indent(s)
  }

  lemma BlankUpToIndent(s: string, k: nat)
    requires k <= |s|
    ensures Blank(s[..k]) <==> k <= Indent(s)
  {
    StripSlices(s);
    hide IsSpace, LStrip;
    var w := Indent(s);
    if w < k {
      assert s[w] == s[w..][0] == LStrip(s)[0];
      assert s[..k][w] == s[w];
    } else {
      assert forall i :: 0 <= i < k ==> s[..k][i] == s[i];
    }
  }

  /** Where the cut is, by the breaks in the window. */
  lemma CutByBreaks(s: string, limit: nat, w: nat)
    requires 0 < limit < |s| && w < |s| && s[w] != '\n' && w < limit
    ensures var window, cut := s[..limit], FindSplitBoundary(s, limit);
      cut <= w <==> if exists i | 0 <= i < limit :: Occurs(window, "\n\n", i)
        then forall i :: 0 <= i < limit && Occurs(window, "\n\n", i) ==> i < w
        else
          && (exists i | 0 <= i < limit :: window[i] == '\n')
          && forall i :: 0 <= i < limit && window[i] == '\n' ==> i < w
  {
    hide LastBefore;
    var window := s[..limit];
    var p := LastBefore(window, "\n\n", limit);
    var q := LastBefore(window, "\n", limit);
    forall i | 0 <= i < limit ensures Occurs(window, "\n", i) <==> window[i] == '\n' {
      OccursInRange(s, limit, "\n", i);
    }
    if p.Some? {
      OccursInRange(s, limit, "\n\n", p.value);
    } else if q.Some? {
      assert window[q.value] == '\n';
    }
  }

  lemma CutWithinIndentIff(s: string, limit: nat)
    requires 0 < limit < |s|
    ensures FindSplitBoundary(s, limit) <= Indent(s) <==> StartsBlank(s, limit)
  {
    hide FindSplitBoundary;
    if Indent(s) < limit {
      assert s[Indent(s)] == LStrip(s)[0] && IsSpace('\n');
      CutByBreaks(s, limit, Indent(s));
    }
  }

  lemma PostIsEmptyIff(s: string, limit: nat)
    requires 0 < limit < |s|
    ensures PostOf(s, limit) == "" <==> StartsBlank(s, limit)
  {
    hide IsSpace, LStrip, RStrip, StartsBlank;
    var cut := FindSplitBoundary(s, limit);
    var gap := RStripLoses(s[..cut]);
    BlankUpToIndent(s, cut);
    CutWithinIndentIff(s, limit);
  }

  lemma SplitTail(text: string, limit: nat)
    requires limit > 0 && |Split(text, limit)| > 1
    ensures |text| > limit && Split(text, limit) == [PostOf(text, limit)] + Split(RestOf(text, limit), limit)
  {
    hide PostOf, RestOf;
  }

  lemma {:induction false} ChunkIsCutFrom(text: string, limit: nat, i: nat)
    requires limit > 0 && i < |Split(text, limit)|
    ensures var left := Remaining(text, limit, i);
      && left != "" && Suffix(left, text) && (i > 0 ==> left[0] != '\n')
      && Split(text, limit)[i] == if |left| <= limit then left else PostOf(left, limit)
    decreases |text|
  {
    hide PostOf, RestOf, Suffix;
    if i == 0 {
      WholeIsSuffix(text);
    } else {
      hide Split;
      SplitTail(text, limit);
      ChunkIsCutFrom(RestOf(text, limit), limit, i - 1);
      SuffixOfSuffix(Remaining(text, limit, i), RestOf(text, limit), text);
    }
  }

  lemma WholeIsSuffix(s: string)
    ensures Suffix(s, s)
  {
  }

  /**
    Unlike the stream below, this can produce empty chunks: exactly those for which what
    is left of the text is over the limit and starts blank.
  */
  lemma {:induction false} ChunkIsEmptyIff(text: string, limit: nat, i: nat)
    requires limit > 0 && i < |Split(text, limit)|
    ensures var left := Remaining(text, limit, i);
      Split(text, limit)[i] == "" <==> |left| > limit && StartsBlank(left, limit)
  {
    hide Split, Remaining, StartsBlank, PostOf;
    ChunkIsCutFrom(text, limit, i);
    var left := Remaining(text, limit, i);
    if |left| > limit { PostIsEmptyIff(left, limit); }
  }

  /** The window at j is not all whitespace. */
  predicate SomeInk(text: string, j: nat, limit: nat)
    requires j + limit <= |text|
  { exists k | j <= k < j + limit :: !IsSpace(text[k]) }

  /** No newline at the start, none after a line of other whitespace, and no run of `limit` spaces. */
  predicate NoBlankStart(text: string, limit: nat) {
    && (text != "" ==> text[0] != '\n')
    && (forall j :: 0 < j < |text| && text[j] == '\n' ==> text[j - 1] == '\n' || !IsSpace(text[j - 1]))
    && (forall j :: 0 <= j <= |text| - limit ==> SomeInk(text, j, limit))
  }

  /** Such a text gives no empty chunk. */
  lemma {:induction false} NoChunkIsEmpty(text: string, limit: nat, i: nat)
    requires limit > 0 && i < |Split(text, limit)| && NoBlankStart(text, limit)
    ensures Split(text, limit)[i] != ""
  {
    hide Split, PostOf, StartsBlank, Suffix, Indent;
    ChunkIsEmptyIff(text, limit, i);
    ChunkIsCutFrom(text, limit, i);
    var left := Remaining(text, limit, i);
    if |left| > limit { SuffixStartsText(text, left, limit); }
  }

  lemma InkBoundsIndent(text: string, left: string, limit: nat)
    requires NoBlankStart(text, limit) && 0 < limit < |left| && Suffix(left, text)
    ensures Indent(left) < limit
  {
    hide IsSpace, Indent;
    var off := |text| - |left|;
    assert SomeInk(text, off, limit);
    var k :| off <= k < off + limit && !IsSpace(text[k]);
    assert text[k] == left[k - off];
    if Indent(left) >= limit { IndentIsBlank(left, k - off); }
  }

  lemma SuffixStartsText(text: string, left: string, limit: nat)
    requires NoBlankStart(text, limit) && 0 < limit < |left| && Suffix(left, text) && left[0] != '\n'
    ensures !StartsBlank(left, limit)
  {
    InkBoundsIndent(text, left, limit);
    hide Indent, SomeInk;
    var w, window := Indent(left), left[..limit];
    forall i | 0 <= i < limit && window[i] == '\n' ensures i >= w {
      if i < w { NoNewlineInIndent(text, left, limit, i); }
    }
    forall i | 0 <= i < limit && Occurs(window, "\n\n", i) ensures i >= w { OccursInRange(left, limit, "\n\n", i); }
  }

  lemma {:induction false} NoNewlineInIndent(text: string, left: string, limit: nat, j: nat)
    requires NoBlankStart(text, limit) && left != "" && Suffix(left, text) && left[0] != '\n'
    requires j < Indent(left) <= |left|
    ensures left[j] != '\n'
  {
    hide IsSpace, Indent;
    if j > 0 {
      NoNewlineInIndent(text, left, limit, j - 1);
      IndentIsBlank(left, j - 1);
      var k := |text| - |left| + j;
      assert left[j] == text[k] && left[j - 1] == text[k - 1];
    }
  }

  lemma IndentIsBlank(s: string, j: nat)
    requires j < Indent(s)
    ensures Indent(s) <= |s| && IsSpace(s[j])
  {
    hide IsSpace;
  }

  /** A long line after a blank one is enough. */
  lemma {:induction false} BlankLineGivesEmptyChunk(line: string)
    requires |line| >= MAX_MESSAGE_LENGTH && '\n' !in line
    ensures Split("\n" + line, MAX_MESSAGE_LENGTH)[0] == ""
  {
    var text := "\n" + line;
    var cut := FindSplitBoundary(text, MAX_MESSAGE_LENGTH);
    CutsAtTheLastBreak(text, MAX_MESSAGE_LENGTH, 0);
    forall k | 1 <= k < |text| ensures text[k] != '\n' { assert text[k] == line[k - 1] && line[k - 1] in line; }
    assert text[..cut] == "\n" && Blank("\n");
    var gap := RStripLoses(text[..cut]);
  }

  // -- disclaimers --

  /** Newlines, this phrase, and any one of the later words if there are some, to the end of the text. */
  datatype Pattern = Pattern(phrase: string, later: seq<string>)

  const DISCLAIMER_PATTERNS: seq<Pattern> := [
    Pattern("This is general", []), Pattern("This is not legal", []), Pattern("This is not medical", []),
    Pattern("This is not financial", []), Pattern("Note:", ["disclaimer", "advice", "professional"]),
    Pattern("Please consult", []), Pattern("Please note", []), Pattern("Please be aware", []),
    Pattern("I'm an AI", []), Pattern("I am an AI", []), Pattern("As an AI", []),
    Pattern("Remember, I'm", []), Pattern("Remember, I am", [])]

  predicate WordAt(s: string, w: string, i: nat) { i + |w| <= |s| && Fold(s[i..i + |w|]) == Fold(w) }

  predicate PhraseAt(s: string, p: Pattern, j: nat) {
    && WordAt(s, p.phrase, j)
    && (p.later == [] || exists k, w | j + |p.phrase| <= k <= |s| && 0 <= w < |p.later| :: WordAt(s, p.later[w], k))
  }

  predicate MatchesAt(s: string, p: Pattern, i: nat) {
    exists j | i < j <= |s| :: (forall x :: i <= x < j ==> s[x] == '\n') && PhraseAt(s, p, j)
  }

  /** The leftmost match at or after `from`, or the end of the text. */
  function FirstMatch(s: string, p: Pattern, from: nat): (i: nat)
    requires from <= |s|
    ensures from <= i <= |s| && (i < |s| ==> MatchesAt(s, p, i)) && forall j :: from <= j < i ==> !MatchesAt(s, p, j)
    decreases |s| - from
  {
    if from == |s| || MatchesAt(s, p, from) then from else FirstMatch(s, p, from + 1)
  }

  /** One `re.sub`: everything from the leftmost match on goes. */
  function CutPattern(s: string, p: Pattern): string { s[..FirstMatch(s, p, 0)] }

  function CutAll(s: string, ps: seq<Pattern>): (r: string)
    ensures |r| <= |s| && r == s[..|r|]
    decreases |ps|
  {
    if ps == [] then s else CutAll(CutPattern(s, ps[0]), ps[1..])
  }

  /** `strip_disclaimers` */
  function StripDisclaimers(s: string): string { Strip(CutAll(s, DISCLAIMER_PATTERNS)) }

  predicate Free(s: string, p: Pattern) { forall i :: 0 <= i <= |s| ==> !MatchesAt(s, p, i) }

  lemma Slices(s: string, a: nat, b: nat, i: nat, n: nat)
    requires a <= b <= |s| && i + n <= b - a
    ensures s[a..b][i..i + n] == s[a + i..a + i + n]
  {
    var t, u := s[a..b][i..i + n], s[a + i..a + i + n];
    forall k | 0 <= k < n ensures t[k] == u[k] { assert t[k] == s[a..b][i + k] == s[a + i + k]; }
  }

  lemma WordShifts(s: string, w: string, i: nat, a: nat, b: nat)
    requires a <= b <= |s| && WordAt(s[a..b], w, i)
    ensures WordAt(s, w, a + i)
  {
    hide Fold;
    Slices(s, a, b, i, |w|);
  }

  /** What matches in a stretch of the text matches in the text. */
  lemma MatchShifts(s: string, p: Pattern, i: nat, a: nat, b: nat)
    requires a <= b <= |s| && MatchesAt(s[a..b], p, i)
    ensures MatchesAt(s, p, a + i)
  {
    hide WordAt;
    var t := s[a..b];
    var j :| i < j <= |t| && (forall x :: i <= x < j ==> t[x] == '\n') && PhraseAt(t, p, j);
    forall x | a + i <= x < a + j ensures s[x] == '\n' { assert t[x - a] == '\n'; }
    WordShifts(s, p.phrase, j, a, b);
    if p.later != [] {
      var k, w :| j + |p.phrase| <= k <= |t| && 0 <= w < |p.later| && WordAt(t, p.later[w], k);
      WordShifts(s, p.later[w], k, a, b);
    }
    assert PhraseAt(s, p, a + j);
  }

  lemma FreeStretch(s: string, p: Pattern, a: nat, b: nat)
    requires a <= b <= |s| && Free(s, p)
    ensures Free(s[a..b], p)
  {
    hide MatchesAt;
    forall i | 0 <= i <= |s[a..b]| ensures !MatchesAt(s[a..b], p, i) {
      if MatchesAt(s[a..b], p, i) { MatchShifts(s, p, i, a, b); }
    }
  }

  lemma CutIsFree(s: string, p: Pattern)
    ensures Free(CutPattern(s, p), p)
  {
    var k := FirstMatch(s, p, 0);
    assert s[0..k] == s[..k];
    forall i | 0 <= i <= k ensures !MatchesAt(s[..k], p, i) {
      if i < k && MatchesAt(s[..k], p, i) { MatchShifts(s, p, i, 0, k); }
    }
  }

  lemma {:induction false} CutAllFrees(s: string, ps: seq<Pattern>, i: nat)
    requires i < |ps|
    ensures Free(CutAll(s, ps), ps[i])
    decreases |ps|
  {
    hide Free, FirstMatch;
    var t := CutPattern(s, ps[0]);
    var r := CutAll(t, ps[1..]);
    if i == 0 {
      CutIsFree(s, ps[0]);
      FreeStretch(t, ps[0], 0, |r|);
      assert t[0..|r|] == r;
    } else {
      CutAllFrees(t, ps[1..], i - 1);
    }
  }

  /** What is cut off is nothing, or starts with a disclaimer. */
  lemma {:induction false} CutStartsADisclaimer(s: string, ps: seq<Pattern>) returns (i: nat)
    requires |CutAll(s, ps)| < |s|
    ensures i < |ps| && MatchesAt(s, ps[i], |CutAll(s, ps)|)
    decreases |ps|
  {
    hide MatchesAt;
    var t := CutPattern(s, ps[0]);
    var r := CutAll(t, ps[1..]);
    if |r| < |t| {
      i := CutStartsADisclaimer(t, ps[1..]);
      assert s[0..|t|] == t;
      MatchShifts(s, ps[1..][i], |r|, 0, |t|);
      i := i + 1;
    } else {
      i := 0;
    }
  }

  lemma StripParts(s: string) returns (lead: string, trail: string)
    ensures s == lead + Strip(s) + trail && Blank(lead) && Blank(trail)
  {
    hide LStrip, RStrip, IsSpace;
    lead := LStripLoses(s);
    trail := RStripLoses(LStrip(s));
  }

  /** After the final strip no disclaimer is left. */
  lemma {:induction false} NoDisclaimerLeft(s: string, i: nat)
    requires i < |DISCLAIMER_PATTERNS|
    ensures Free(StripDisclaimers(s), DISCLAIMER_PATTERNS[i])
  {
    hide Free, MatchesAt, LStrip, RStrip;
    var t := CutAll(s, DISCLAIMER_PATTERNS);
    CutAllFrees(s, DISCLAIMER_PATTERNS, i);
    var lead, trail := StripParts(t);
    var n := |Strip(t)|;
    FreeStretch(t, DISCLAIMER_PATTERNS[i], |lead|, |lead| + n);
    assert t[|lead|..|lead| + n] == Strip(t);
  }

  // -- streaming --

  function Concat(tokens: seq<string>): string {
    if tokens == [] then "" else Concat(tokens[..|tokens| - 1]) + tokens[|tokens| - 1]
  }

  /** The end of the response that was cut as a disclaimer. */
  predicate Disclaimer(cut: string) {
    cut == "" || exists i | 0 <= i < |DISCLAIMER_PATTERNS| :: MatchesAt(cut, DISCLAIMER_PATTERNS[i], 0)
  }

  predicate Postable(post: string) { 0 < |post| <= MAX_MESSAGE_LENGTH && !IsSpace(post[|post| - 1]) }

  /** The posts a full buffer is cut into, and what stays in it. */
  function Flushed(buffer: string): (r: (seq<string>, string))
    ensures |r.1| < MAX_MESSAGE_LENGTH
    decreases |buffer|
  {
    if |buffer| < MAX_MESSAGE_LENGTH then ([], buffer)
    else
      var post := PostOf(buffer, MAX_MESSAGE_LENGTH);
      var (posts, left) := Flushed(RestOf(buffer, MAX_MESSAGE_LENGTH));
      (if post != "" then [post] + posts else posts, left)
  }

  /** What has been posted when these tokens have come in, and what is still held back. */
  function Streamed(tokens: seq<string>): (seq<string>, string) {
    if tokens == [] then ([], "")
    else
      var (posts, buffer) := Streamed(tokens[..|tokens| - 1]);
      var (more, left) := Flushed(buffer + tokens[|tokens| - 1]);
      (posts + more, left)
  }

  /** Everything posted in the end: the last buffer goes out stripped, unless nothing is left of it. */
  function Posted(tokens: seq<string>): seq<string> {
    var (posts, buffer) := Streamed(tokens);
    if StripDisclaimers(buffer) != "" then posts + [StripDisclaimers(buffer)] else posts
  }

  /** Flushing: full posts are cut off the buffer until it is under the limit. */
  method Flush(buffer: string, posts: seq<string>, ghost gaps: seq<string>)
    returns (buffer': string, posts': seq<string>, ghost gaps': seq<string>)
    requires |gaps| == |posts| + 1 && AllBlank(gaps) && forall i :: 0 <= i < |posts| ==> Postable(posts[i])
    ensures |gaps'| == |posts'| + 1 && AllBlank(gaps') && forall i :: 0 <= i < |posts'| ==> Postable(posts'[i])
    ensures Woven(gaps', posts') + buffer' == Woven(gaps, posts) + buffer
    ensures posts' == posts + Flushed(buffer).0 && buffer' == Flushed(buffer).1
  {
    hide PostOf, RestOf, IsSpace, Woven;
    buffer', posts', gaps' := buffer, posts, gaps;
    while |buffer'| >= MAX_MESSAGE_LENGTH
      invariant |gaps'| == |posts'| + 1 && AllBlank(gaps') && forall i :: 0 <= i < |posts'| ==> Postable(posts'[i])
      invariant Woven(gaps', posts') + buffer' == Woven(gaps, posts) + buffer
      invariant posts' + Flushed(buffer').0 == posts + Flushed(buffer).0 && Flushed(buffer').1 == Flushed(buffer).1
      decreases |buffer'|
    {
      var chunk, rest := PostOf(buffer', MAX_MESSAGE_LENGTH), RestOf(buffer', MAX_MESSAGE_LENGTH);
      ghost var gap := CutLosesBlanks(buffer', MAX_MESSAGE_LENGTH);
      if chunk != "" {
        PostIsPostable(buffer');
        WovenMore(gaps', posts', chunk, gap);
        assert posts' + ([chunk] + Flushed(rest).0) == posts' + [chunk] + Flushed(rest).0;
        posts', gaps' := posts' + [chunk], gaps' + [gap];
      } else {
        WovenWider(gaps', posts', gap);
        gaps' := Widen(gaps', gap);
      }
      buffer' := rest;
    }
  }

  lemma PostIsPostable(buffer: string)
    requires PostOf(buffer, MAX_MESSAGE_LENGTH) != ""
    ensures Postable(PostOf(buffer, MAX_MESSAGE_LENGTH))
  {
  }

  lemma StrippedIsPostable(s: string)
    requires |s| < MAX_MESSAGE_LENGTH && Strip(s) != ""
    ensures Postable(Strip(s))
  {
    hide IsSpace;
  }

  lemma {:induction false} WhatWasCut(buffer: string) returns (cut: string)
    ensures buffer == CutAll(buffer, DISCLAIMER_PATTERNS) + cut && Disclaimer(cut)
  {
    hide MatchesAt, CutAll, CutPattern;
    var kept := CutAll(buffer, DISCLAIMER_PATTERNS);
    cut := buffer[|kept|..];
    assert buffer == kept + cut;
    if cut != "" {
      var i := CutStartsADisclaimer(buffer, DISCLAIMER_PATTERNS);
      MatchDrops(buffer, DISCLAIMER_PATTERNS[i], |kept|);
    }
  }

  /** The last buffer is its post, whitespace around it, and a disclaimer. */
  lemma {:induction false} LastPost(buffer: string) returns (lead: string, trail: string, cut: string)
    requires |buffer| < MAX_MESSAGE_LENGTH
    ensures buffer == lead + StripDisclaimers(buffer) + trail + cut && Blank(lead) && Blank(trail) && Disclaimer(cut)
    ensures StripDisclaimers(buffer) != "" ==> Postable(StripDisclaimers(buffer))
  {
    hide Disclaimer, Strip, Postable;
    var kept := CutAll(buffer, DISCLAIMER_PATTERNS);
    cut := WhatWasCut(buffer);
    lead, trail := StripParts(kept);
    if Strip(kept) != "" { StrippedIsPostable(kept); }
  }

  lemma MatchDrops(s: string, p: Pattern, n: nat)
    requires n <= |s| && MatchesAt(s, p, n)
    ensures MatchesAt(s[n..], p, 0)
  {
    hide Fold;
    var t := s[n..];
    var j :| n < j <= |s| && (forall x :: n <= x < j ==> s[x] == '\n') && PhraseAt(s, p, j);
    assert t[j - n..j - n + |p.phrase|] == s[j..j + |p.phrase|];
    if p.later != [] {
      var k, w :| j + |p.phrase| <= k <= |s| && 0 <= w < |p.later| && WordAt(s, p.later[w], k);
      assert t[k - n..k - n + |p.later[w]|] == s[k..k + |p.later[w]|];
      assert WordAt(t, p.later[w], k - n);
    }
    assert PhraseAt(t, p, j - n);
  }

  /**
    `stream_and_send`: however the response is cut into tokens, every post is non-empty
    and within the limit, and the posts joined are the response up to whitespace at the
    cuts and a disclaimer at its end.
  */
  method StreamAndSend(tokens: seq<string>)
    returns (response: string, posts: seq<string>, ghost gaps: seq<string>, ghost cut: string)
    ensures response == Concat(tokens) && posts == Posted(tokens)
    ensures forall i :: 0 <= i < |posts| ==> Postable(posts[i])
    ensures |gaps| == |posts| + 1 && AllBlank(gaps) && Disclaimer(cut) && response == Woven(gaps, posts) + cut
  {
    hide StripDisclaimers, IsSpace, Woven, Disclaimer, Postable, Flushed;
    var buffer := "";
    response, posts, gaps := "", [], [""];
    WovenNothing();
    for i := 0 to |tokens|
      invariant |gaps| == |posts| + 1 && AllBlank(gaps) && forall i :: 0 <= i < |posts| ==> Postable(posts[i])
      invariant response == Concat(tokens[..i]) == Woven(gaps, posts) + buffer
      invariant (posts, buffer) == Streamed(tokens[..i]) && |buffer| < MAX_MESSAGE_LENGTH
    {
      assert tokens[..i + 1][..i] == tokens[..i];
      buffer, response := buffer + tokens[i], response + tokens[i];
      buffer, posts, gaps := Flush(buffer, posts, gaps);
    }
    assert tokens[..|tokens|] == tokens;
    ghost var lead, trail;
    lead, trail, cut := LastPost(buffer);
    buffer := StripDisclaimers(buffer);
    WovenWider(gaps, posts, lead);
    gaps := Widen(gaps, lead);
    if buffer != "" {
      WovenMore(gaps, posts, buffer, trail);
      posts, gaps := posts + [buffer], gaps + [trail];
    } else {
      WovenWider(gaps, posts, trail);
      gaps := Widen(gaps, trail);
    }
  }

  lemma WovenNothing()
    ensures Woven([""], []) == "" && AllBlank([""]) && Concat([]) == ""
  {
  }
}
