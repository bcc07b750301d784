/**
  A conversation chunk printed as a mini-transcript, and the parser that reads it
  back. Case folding is ASCII.
*/
module Transcript {
  import opened Wrappers
  import opened Excerpts

  /** One archived message; `stamp` is its time as the header prints it, and no caption is "". */
  datatype Message = Message(
    id: string, user: string, channelId: string, channelName: string,
    time: int, stamp: string, content: string, caption: string)

  type Chunk = seq<Message>

  function Text(m: Message): string {
    if m.caption != "" then m.content + " [image: " + m.caption + "]" else m.content
  }

  function Line(m: Message): string { m.user + ": " + Text(m) }

  function Header(c: Chunk): string
    requires c != []
  { "[#" + c[0].channelName + " | " + c[0].stamp + "]" }

  function Lines(c: Chunk): seq<string> {
    if c == [] then [] else [Line(c[0])] + Lines(c[1..])
  }

  function JoinLines(lines: seq<string>): string {
    if lines == [] then "" else if |lines| == 1 then lines[0] else lines[0] + "\n" + JoinLines(lines[1..])
  }

  /** `format_chunk_text` */
  function Format(c: Chunk): string {
    if c == [] then "" else JoinLines([Header(c)] + Lines(c))
  }

  // -- splitlines --

  /** The characters str.splitlines breaks at. */
  predicate IsBreak(c: char) {
    var n := c as int;
    10 <= n <= 13 || 28 <= n <= 30 || n == 0x85 || n == 0x2028 || n == 0x2029
  }

  function EndOfLine(s: string): (i: nat)
    ensures i <= |s| && (i < |s| ==> IsBreak(s[i])) && forall j :: 0 <= j < i ==> !IsBreak(s[j])
  {
    if s == "" || IsBreak(s[0]) then 0 else 1 + EndOfLine(s[1..])
  }

  /** What follows the break at i; a return and a newline are one break. */
  function AfterBreak(s: string, i: nat): (r: string)
    requires i < |s|
    ensures |r| < |s|
  {
    if i + 1 < |s| && s[i] == '\r' && s[i + 1] == '\n' then s[i + 2..] else s[i + 1..]
  }

  function SplitLines(s: string): seq<string>
    decreases |s|
  {
    if s == "" then []
    else
      var i := EndOfLine(s);
      if i == |s| then [s] else [s[..i]] + SplitLines(AfterBreak(s, i))
  }

  /** The text uses no line break but \n. */
  predicate PlainBreaks(s: string) { forall i :: 0 <= i < |s| && IsBreak(s[i]) ==> s[i] == '\n' }

  /** The first place a character occurs, or the length. */
  function IndexOf(s: string, c: char): (i: nat)
    ensures i <= |s| && (i < |s| ==> s[i] == c) && forall j :: 0 <= j < i ==> s[j] != c
  {
    if s == "" || s[0] == c then 0 else 1 + IndexOf(s[1..], c)
  }

  lemma {:induction false} IndexIs(s: string, c: char, k: nat)
    requires k <= |s| && (k < |s| ==> s[k] == c) && forall j :: 0 <= j < k ==> s[j] != c
    ensures IndexOf(s, c) == k
  {
    if k > 0 { IndexIs(s[1..], c, k - 1); }
  }

  /** A prefix without the character only shifts its first place. */
  lemma IndexAfter(a: string, b: string, c: char)
    requires c !in a
    ensures IndexOf(a + b, c) == |a| + IndexOf(b, c)
  {
    forall j | 0 <= j < |a| ensures (a + b)[j] != c { assert (a + b)[j] in a; }
    IndexIs(a + b, c, |a| + IndexOf(b, c));
  }

  /** `s.split(c)` */
  function SplitAt(s: string, c: char): (r: seq<string>)
    ensures r != [] && forall i :: 0 <= i < |r| ==> c !in r[i]
    decreases |s|
  {
    var i := IndexOf(s, c);
    if i == |s| then [s] else [s[..i]] + SplitAt(s[i + 1..], c)
  }

  function SplitNl(s: string): seq<string> { SplitAt(s, '\n') }

  lemma FirstBreakIsNl(s: string)
    requires PlainBreaks(s)
    ensures EndOfLine(s) == IndexOf(s, '\n')
  {
    assert IsBreak('\n');
    hide IsBreak;
    IndexIs(s, '\n', EndOfLine(s));
  }

  lemma SplitOneLine(s: string, i: nat)
    requires s != "" && i == EndOfLine(s)
    ensures i == |s| ==> SplitLines(s) == [s]
    ensures i < |s| ==> SplitLines(s) == [s[..i]] + SplitLines(AfterBreak(s, i))
  {
    hide IsBreak, EndOfLine, AfterBreak;
  }

  lemma SplitOneNl(s: string, i: nat)
    requires i == IndexOf(s, '\n')
    ensures i == |s| ==> SplitNl(s) == [s]
    ensures i < |s| ==> SplitNl(s) == [s[..i]] + SplitNl(s[i + 1..])
  {
    hide IndexOf;
    assert SplitNl(s) == SplitAt(s, '\n');
    if i < |s| { assert SplitNl(s[i + 1..]) == SplitAt(s[i + 1..], '\n'); }
  }

  lemma RestIsPrinted(s: string, i: nat)
    requires Printed(s) && i < |s| && s[i] == '\n'
    ensures AfterBreak(s, i) == s[i + 1..] && Printed(s[i + 1..])
  {
    hide IsBreak;
  }

  /** Where the only breaks are newlines, splitting into lines is splitting on newlines. */
  lemma {:induction false} PlainSplitLines(s: string)
    requires Printed(s)
    ensures SplitLines(s) == SplitNl(s)
    decreases |s|
  {
    PrintedIsPlain(s);
    hide SplitLines, SplitNl, SplitAt, Printed, PlainBreaks, IndexOf, EndOfLine, IsBreak, AfterBreak;
    FirstBreakIsNl(s);
    var i := EndOfLine(s);
    SplitOneLine(s, i);
    SplitOneNl(s, i);
    if i < |s| {
      RestIsPrinted(s, i);
      PlainSplitLines(s[i + 1..]);
    }
  }

  lemma SplitAtFirst(head: string, rest: string, c: char)
    requires c !in head
    ensures SplitAt(head + [c] + rest, c) == [head] + SplitAt(rest, c)
  {
    var s := head + [c] + rest;
    forall j | 0 <= j < |head| ensures s[j] != c { assert s[j] == head[j] && head[j] in head; }
    IndexIs(s, c, |head|);
    assert s[..|head|] == head && s[|head| + 1..] == rest;
  }

  /** Splitting distributes over a separator between two texts. */
  lemma {:induction false} SplitConcat(a: string, b: string, c: char)
    ensures SplitAt(a + [c] + b, c) == SplitAt(a, c) + SplitAt(b, c)
    decreases |a|
  {
    hide SplitAt, IndexOf;
    var i := IndexOf(a, c);
    if i == |a| {
      SplitAtFirst(a, b, c);
      SplitWhole(a, c);
    } else {
      var head, rest := a[..i], a[i + 1..];
      SplitConcat(rest, b, c);
      SplitAtFirst(head, rest, c);
      SplitAtFirst(head, rest + [c] + b, c);
      assert a == head + [c] + rest;
      assert a + [c] + b == head + [c] + (rest + [c] + b);
    }
  }

  lemma SplitWhole(a: string, c: char)
    requires c !in a
    ensures SplitAt(a, c) == [a]
  {
    IndexIs(a, c, |a|);
  }

  /** A newline-free prefix stays on the first line. */
  lemma SplitNlPrefix(a: string, b: string)
    requires '\n' !in a
    ensures SplitNl(a + b) == [a + SplitNl(b)[0]] + SplitNl(b)[1..]
  {
    IndexAfter(a, b, '\n');
    var j := IndexOf(b, '\n');
    if j < |b| {
      assert (a + b)[..|a| + j] == a + b[..j];
      assert (a + b)[|a| + j + 1..] == b[j + 1..];
    }
  }

  lemma {:induction false} JoinSplitNl(s: string)
    ensures JoinLines(SplitNl(s)) == s
    decreases |s|
  {
    var i := IndexOf(s, '\n');
    if i < |s| {
      JoinSplitNl(s[i + 1..]);
      assert SplitNl(s)[1..] == SplitNl(s[i + 1..]);
      assert s == s[..i] + "\n" + s[i + 1..];
    }
  }

  // -- metadata --

  function LowerChar(c: char): char { if 'A' <= c <= 'Z' then (c as int + 32) as char else c }

  function Fold(s: string): (r: string)
    ensures |r| == |s| && forall i :: 0 <= i < |s| ==> r[i] == LowerChar(s[i])
  {
    if s == "" then "" else [LowerChar(s[0])] + Fold(s[1..])
  }

  /** `list(dict.fromkeys(...))`: the speakers, first occurrences in order. */
  function Authors(c: Chunk): seq<string> {
    if c == [] then []
    else var rest := Authors(c[..|c| - 1]);
         if c[|c| - 1].user in rest then rest else rest + [c[|c| - 1].user]
  }

  function JoinCommas(xs: seq<string>): string {
    if xs == [] then "" else if |xs| == 1 then xs[0] else xs[0] + "," + JoinCommas(xs[1..])
  }

  /** The folded names in the metadata's author list. */
  function Known(authors: string): set<string> {
    set a | a in SplitAt(authors, ',') && Strip(a) != "" :: Fold(Strip(a))
  }

  // -- parsing --

  /** `^(?P<user>[^:\n]+): (?P<text>.*)$` on one line. */
  function MatchLine(line: string): Option<(string, string)> {
    var i := IndexOf(line, ':');
    if 0 < i && i + 1 < |line| && line[i + 1] == ' ' then Some((line[..i], line[i + 2..])) else None
  }

  /** The line starts a new message: it reads "known author: ". */
  predicate Starts(line: string, known: set<string>) {
    MatchLine(line).Some? && (known == {} || Fold(Strip(MatchLine(line).value.0)) in known)
  }

  /** One turn of the parser's loop. */
  function Absorb(acc: seq<(string, string)>, line: string, known: set<string>): seq<(string, string)> {
    if Starts(line, known) then acc + [(Strip(MatchLine(line).value.0), MatchLine(line).value.1)]
    else if acc != [] then
      var last := acc[|acc| - 1];
      acc[..|acc| - 1] + [(last.0, last.1 + "\n" + line)]
    else acc
  }

  function AbsorbAll(acc: seq<(string, string)>, lines: seq<string>, known: set<string>): seq<(string, string)>
    decreases |lines|
  {
    if lines == [] then acc else AbsorbAll(Absorb(acc, lines[0], known), lines[1..], known)
  }

  function Parse(doc: string, authors: string): seq<(string, string)> {
    AbsorbAll([], SplitLines(doc), Known(authors))
  }

  /** `_parse_chunk_messages` as it runs. */
  method ParseChunkMessages(doc: string, authors: string) returns (messages: seq<(string, string)>)
    ensures messages == Parse(doc, authors)
  {
    hide SplitLines, Known, MatchLine, Strip, Fold;
    var known := Known(authors);
    var lines := SplitLines(doc);
    messages := [];
    var i := 0;
    while i < |lines|
      invariant 0 <= i <= |lines|
      invariant AbsorbAll(messages, lines[i..], known) == Parse(doc, authors)
    {
      assert lines[i..][0] == lines[i] && lines[i..][1..] == lines[i + 1..];
      ghost var was := messages;
      var m := MatchLine(lines[i]);
      if m.Some? && (known == {} || Fold(Strip(m.value.0)) in known) {
        messages := messages + [(Strip(m.value.0), m.value.1)];
      } else if messages != [] {
        var last := messages[|messages| - 1];
        messages := messages[|messages| - 1 := (last.0, last.1 + "\n" + lines[i])];
      }
      assert messages == Absorb(was, lines[i], known);
      i := i + 1;
    }
    assert lines[i..] == [];
  }

  // -- round trip --

  predicate GoodName(u: string) {
    Stripped(u) && ',' !in u && ':' !in u && forall i :: 0 <= i < |u| ==> !IsBreak(u[i])
  }

  predicate OneLine(s: string) { forall i :: 0 <= i < |s| ==> !IsBreak(s[i]) }

  predicate GoodText(t: string) { PlainBreaks(t) && (t != "" ==> t[|t| - 1] != '\n') }

  /** No later line of the message reads as one of these speakers talking. */
  predicate NoFalseSpeaker(t: string, users: set<string>) {
    forall i :: 1 <= i < |SplitNl(t)| ==>
      var m := MatchLine(SplitNl(t)[i]);
      m.Some? ==> Fold(Strip(m.value.0)) !in users
  }

  function Speakers(c: Chunk): set<string> { set m | m in c :: Fold(m.user) }

  predicate Good(m: Message) { GoodName(m.user) && GoodText(Text(m)) }

  /** The header is one line and does not read as one of these speakers talking. */
  predicate GoodHeader(c: Chunk, users: set<string>)
    requires c != []
  { OneLine(Header(c)) && !Starts(Header(c), users) }

  predicate GoodChunk(c: Chunk) {
    && (forall i :: 0 <= i < |c| ==> Good(c[i]) && NoFalseSpeaker(Text(c[i]), Speakers(c)))
    && (c != [] ==> GoodHeader(c, Speakers(c)))
  }

  function Said(c: Chunk): seq<(string, string)> {
    if c == [] then [] else [(c[0].user, Text(c[0]))] + Said(c[1..])
  }

  lemma {:induction false} SplitJoinCommas(xs: seq<string>)
    requires xs != [] && forall i :: 0 <= i < |xs| ==> ',' !in xs[i]
    ensures SplitAt(JoinCommas(xs), ',') == xs
  {
    IndexIs(xs[0], ',', |xs[0]|);
    if |xs| > 1 {
      SplitConcat(xs[0], JoinCommas(xs[1..]), ',');
      SplitJoinCommas(xs[1..]);
    }
  }

  lemma {:induction false} AuthorsAreUsers(c: Chunk)
    ensures forall u :: u in Authors(c) <==> exists i :: 0 <= i < |c| && c[i].user == u
  {
    if c != [] {
      var init := c[..|c| - 1];
      AuthorsAreUsers(init);
      forall u ensures u in Authors(c) <==> exists i :: 0 <= i < |c| && c[i].user == u {
        if i :| 0 <= i < |c| && c[i].user == u {
          if i < |init| { assert init[i].user == u; }
        }
      }
    }
  }

  lemma NameFacts(u: string)
    requires GoodName(u)
    ensures Strip(u) == u && u != "" && ',' !in u
  {
    StripFixes(u);
  }

  /** The names the parser knows are exactly the chunk's speakers. */
  lemma {:induction false} KnownAreSpeakers(c: Chunk)
    requires c != [] && forall i :: 0 <= i < |c| ==> GoodName(c[i].user)
    ensures Known(JoinCommas(Authors(c))) == Speakers(c) && Speakers(c) != {}
  {
    hide SplitAt, Authors, Fold, Strip, JoinCommas, GoodName;
    var authors := Authors(c);
    AuthorsAreUsers(c);
    assert c[0].user in authors && c[0] in c;
    forall a | a in authors ensures Strip(a) == a && a != "" && ',' !in a { NameFacts(a); }
    SplitJoinCommas(authors);
    assert Known(JoinCommas(authors)) == set a | a in authors :: Fold(a);
    FoldedUsers(c, authors);
    assert Fold(c[0].user) in Speakers(c);
  }

  lemma FoldedUsers(c: Chunk, authors: seq<string>)
    requires forall u :: u in authors <==> exists i :: 0 <= i < |c| && c[i].user == u
    ensures (set a | a in authors :: Fold(a)) == Speakers(c)
  {
    hide Fold;
    var known := set a | a in authors :: Fold(a);
    forall k | k in known ensures k in Speakers(c) {
      var a :| a in authors && k == Fold(a);
      var j :| 0 <= j < |c| && c[j].user == a;
      assert c[j] in c;
    }
    forall m | m in c ensures Fold(m.user) in known {
      assert m.user in authors;
    }
  }

  lemma SpokenLineMatches(u: string, t: string)
    requires GoodName(u)
    ensures MatchLine(u + ": " + t) == Some((u, t)) && Strip(u) == u
  {
    var line := u + ": " + t;
    assert line == u + (": " + t);
    IndexAfter(u, ": " + t, ':');
    IndexIs(": " + t, ':', 0);
    StripFixes(u);
    assert line[..|u|] == u && line[|u| + 2..] == t;
  }

  lemma FirstTwoJoin(t: string, lines: seq<string>)
    requires lines != []
    ensures JoinLines([t] + lines) == JoinLines([t + "\n" + lines[0]] + lines[1..])
  {
    assert ([t] + lines)[1..] == lines;
    var merged := [t + "\n" + lines[0]] + lines[1..];
    assert merged[1..] == lines[1..];
    if |lines| == 1 {
      assert JoinLines(lines) == lines[0];
    } else {
      assert JoinLines(merged) == t + "\n" + lines[0] + "\n" + JoinLines(lines[1..]);
    }
  }

  /** Continuation lines are all joined onto the message before them. */
  lemma {:induction false} ContinuationsJoin(acc: seq<(string, string)>, u: string, t: string, lines: seq<string>,
                                             known: set<string>)
    requires forall i :: 0 <= i < |lines| ==> !Starts(lines[i], known)
    ensures AbsorbAll(acc + [(u, t)], lines, known) == acc + [(u, JoinLines([t] + lines))]
    decreases |lines|
  {
    if lines == [] {
      assert [t] + lines == [t];
    } else {
      var t' := t + "\n" + lines[0];
      assert Absorb(acc + [(u, t)], lines[0], known) == acc + [(u, t')];
      ContinuationsJoin(acc, u, t', lines[1..], known);
      FirstTwoJoin(t, lines);
    }
  }

  /** One printed message parses back to itself, whatever came before. */
  lemma {:induction false} MessageParses(acc: seq<(string, string)>, m: Message, known: set<string>)
    requires Good(m) && Fold(m.user) in known && NoFalseSpeaker(Text(m), known)
    ensures AbsorbAll(acc, SplitNl(Line(m)), known) == acc + [(m.user, Text(m))]
  {
    var t := Text(m);
    var first, rest := SplitNl(t)[0], SplitNl(t)[1..];
    var lead := m.user + ": ";
    assert forall i :: 0 <= i < |m.user| ==> !IsBreak(m.user[i]);
    assert IsBreak('\n') && '\n' !in m.user && '\n' !in lead;
    SplitNlPrefix(lead, t);
    var lines := SplitNl(Line(m));
    assert lines == [lead + first] + rest && lines[1..] == rest;
    SpokenLineMatches(m.user, first);
    assert Absorb(acc, lines[0], known) == acc + [(m.user, first)];
    forall i | 0 <= i < |rest| ensures !Starts(rest[i], known) { assert rest[i] == SplitNl(t)[i + 1]; }
    ContinuationsJoin(acc, m.user, first, rest, known);
    assert [first] + rest == SplitNl(t);
    JoinSplitNl(t);
  }

  lemma {:induction false} AbsorbConcat(acc: seq<(string, string)>, a: seq<string>, b: seq<string>, known: set<string>)
    ensures AbsorbAll(acc, a + b, known) == AbsorbAll(AbsorbAll(acc, a, known), b, known)
    decreases |a|
  {
    if a == [] {
      assert a + b == b;
    } else {
      assert (a + b)[1..] == a[1..] + b;
      AbsorbConcat(Absorb(acc, a[0], known), a[1..], b, known);
    }
  }

  lemma LinesUnfold(c: Chunk)
    requires c != []
    ensures |c| == 1 ==> JoinLines(Lines(c)) == Line(c[0])
    ensures |c| > 1 ==> JoinLines(Lines(c)) == Line(c[0]) + "\n" + JoinLines(Lines(c[1..]))
  {
    hide Line;
    if |c| == 1 {
      assert c[1..] == [];
    } else {
      assert Lines(c)[1..] == Lines(c[1..]) && |Lines(c[1..])| > 0;
    }
  }

  lemma {:induction false} MessagesParse(acc: seq<(string, string)>, c: Chunk, known: set<string>)
    requires c != []
    requires forall i :: 0 <= i < |c| ==>
      Good(c[i]) && Fold(c[i].user) in known && NoFalseSpeaker(Text(c[i]), known)
    ensures AbsorbAll(acc, SplitNl(JoinLines(Lines(c))), known) == acc + Said(c)
    decreases |c|
  {
    hide Good, NoFalseSpeaker, SplitAt, Absorb, AbsorbAll, Line, Text, Fold, Lines, JoinLines;
    MessageParses(acc, c[0], known);
    LinesUnfold(c);
    var first := (c[0].user, Text(c[0]));
    var rest := c[1..];
    if |c| == 1 {
      assert rest == [] && Said(rest) == [] && Said(c) == [first];
    } else {
      SplitConcat(Line(c[0]), JoinLines(Lines(rest)), '\n');
      AbsorbConcat(acc, SplitNl(Line(c[0])), SplitNl(JoinLines(Lines(rest))), known);
      MessagesParse(acc + [first], rest, known);
      assert acc + [first] + Said(rest) == acc + Said(c);
    }
  }

  /** Printed text whose only breaks are newlines, the last character not being one. */
  predicate Printed(s: string) { PlainBreaks(s) && s != "" && s[|s| - 1] != '\n' }

  lemma LineIsPrinted(m: Message)
    requires Good(m)
    ensures Printed(Line(m))
  {
    if Text(m) != "" { assert Line(m)[|Line(m)| - 1] == Text(m)[|Text(m)| - 1]; }
  }

  lemma JoinIsPrinted(a: string, b: string)
    requires PlainBreaks(a) && Printed(b)
    ensures Printed(a + "\n" + b)
  {
    hide IsBreak;
    var s := a + "\n" + b;
    forall i | 0 <= i < |s| && IsBreak(s[i]) ensures s[i] == '\n' {
      assert s[i] == if i < |a| then a[i] else if i == |a| then '\n' else b[i - |a| - 1];
    }
  }

  lemma {:induction false} LinesArePrinted(c: Chunk)
    requires c != [] && forall i :: 0 <= i < |c| ==> Good(c[i])
    ensures Printed(JoinLines(Lines(c)))
  {
    hide Printed, Good, Line, JoinLines, Lines;
    LineIsPrinted(c[0]);
    LinesUnfold(c);
    if |c| > 1 {
      LinesArePrinted(c[1..]);
      assert PlainBreaks(Line(c[0])) by { PrintedIsPlain(Line(c[0])); }
      JoinIsPrinted(Line(c[0]), JoinLines(Lines(c[1..])));
    }
  }

  lemma PrintedIsPlain(s: string)
    requires Printed(s)
    ensures PlainBreaks(s) && s != ""
  {
  }

  lemma OneLineSplits(h: string)
    requires OneLine(h)
    ensures SplitNl(h) == [h] && PlainBreaks(h)
  {
    assert IsBreak('\n');
    IndexIs(h, '\n', |h|);
  }

  lemma FormatUnfold(c: Chunk)
    requires c != []
    ensures Format(c) == Header(c) + "\n" + JoinLines(Lines(c))
  {
    assert ([Header(c)] + Lines(c))[1..] == Lines(c) && |Lines(c)| > 0;
  }

  lemma GoodParts(c: Chunk)
    requires c != [] && GoodChunk(c)
    ensures OneLine(Header(c)) && !Starts(Header(c), Speakers(c))
    ensures forall i :: 0 <= i < |c| ==> GoodName(c[i].user) && Fold(c[i].user) in Speakers(c)
  {
    forall i | 0 <= i < |c| ensures Fold(c[i].user) in Speakers(c) { assert c[i] in c; }
  }

  /** The header is skipped and every printed line goes to the message it came from. */
  lemma {:induction false} PrintedLinesParse(c: Chunk)
    requires c != [] && GoodChunk(c)
    ensures AbsorbAll([], SplitLines(Format(c)), Speakers(c)) == Said(c)
  {
    hide Good, NoFalseSpeaker, Starts, GoodName, SplitAt, SplitLines, Fold, Line, Lines, JoinLines, Speakers, Header,
         PlainBreaks, IsBreak;
    var h, body, known := Header(c), JoinLines(Lines(c)), Speakers(c);
    GoodParts(c);
    FormatUnfold(c);
    LinesArePrinted(c);
    OneLineSplits(h);
    JoinIsPrinted(h, body);
    PlainSplitLines(Format(c));
    SplitConcat(h, body, '\n');
    AbsorbConcat([], [h], SplitNl(body), known);
    assert Absorb([], h, known) == [] && [h][1..] == [];
    MessagesParse([], c, known);
    assert [] + Said(c) == Said(c);
  }

  /** Parsing undoes printing: a well-formed chunk's text and author list give back exactly who said what. */
  lemma {:induction false} ParseUndoesPrint(c: Chunk)
    requires c != [] && GoodChunk(c)
    ensures Parse(Format(c), JoinCommas(Authors(c))) == Said(c)
  {
    GoodParts(c);
    KnownAreSpeakers(c);
    PrintedLinesParse(c);
  }
}
