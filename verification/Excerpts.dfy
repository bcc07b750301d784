/** Splitting a tool result into excerpts and joining excerpts back, on strings. */
module Excerpts {
  import opened Wrappers

  const SEPARATOR := "\n\n---\n\n"

  /** Python's str.isspace, character by character. */
  predicate IsSpace(c: char) {
    var n := c as int;
    || 9 <= n <= 13 || 28 <= n <= 32 || n == 0x85 || n == 0xA0 || n == 0x1680
    || 0x2000 <= n <= 0x200A || n == 0x2028 || n == 0x2029 || n == 0x202F || n == 0x205F || n == 0x3000
  }

  /** Where the text at or after `from` starts. */
  function TextStart(s: string, from: nat): (k: nat)
    requires from <= |s|
    ensures from <= k <= |s| && (k < |s| ==> !IsSpace(s[k])) && forall i :: from <= i < k ==> IsSpace(s[i])
    decreases |s| - from
  {
    if from == |s| || !IsSpace(s[from]) then from else TextStart(s, from + 1)
  }

  /** Where the text before `to` ends. */
  function TextEnd(s: string, to: nat): (k: nat)
    requires to <= |s|
    ensures k <= to && (k > 0 ==> !IsSpace(s[k - 1])) && forall i :: k <= i < to ==> IsSpace(s[i])
  {
    if to == 0 || !IsSpace(s[to - 1]) then to else TextEnd(s, to - 1)
  }

  function LStrip(s: string): (r: string)
    ensures |r| <= |s| && (r != "" ==> !IsSpace(r[0]))
    ensures forall i :: 0 <= i < |s| - |r| ==> IsSpace(s[i])
  {
    s[TextStart(s, 0)..]
  }

  function RStrip(s: string): (r: string)
    ensures |r| <= |s| && (r != "" ==> !IsSpace(r[|r| - 1]))
    ensures forall i :: |r| <= i < |s| ==> IsSpace(s[i])
  {
    s[..TextEnd(s, |s|)]
  }

  /** Stripping takes a slice. */
  lemma StripSlices(s: string)
    ensures LStrip(s) == s[|s| - |LStrip(s)|..] && RStrip(s) == s[..|RStrip(s)|]
  {
    hide IsSpace;
  }

  function Strip(s: string): string { RStrip(LStrip(s)) }

  /** What `.strip()` leaves of a non-blank string: text with no space at either end. */
  predicate Stripped(s: string) {
    s != "" && !IsSpace(s[0]) && !IsSpace(s[|s| - 1])
  }

  lemma StripFixes(s: string)
    requires Stripped(s)
    ensures Strip(s) == s
  {
  }

  predicate At(s: string, i: nat) {
    i + |SEPARATOR| <= |s| && s[i..i + |SEPARATOR|] == SEPARATOR
  }

  /** Leftmost occurrence of the separator at or after `from`. */
  function Find(s: string, from: nat): (r: Option<nat>)
    requires from <= |s|
    ensures r.Some? ==> from <= r.value && At(s, r.value) && forall i :: from <= i < r.value ==> !At(s, i)
    ensures r.None? ==> forall i :: from <= i ==> !At(s, i)
    decreases |s| - from
  {
    if At(s, from) then Some(from)
    else if from == |s| then None
    else Find(s, from + 1)
  }

  /** `result.split(_RAG_CHUNK_SEPARATOR)` */
  function Split(s: string): seq<string>
    decreases |s|
  {
    match Find(s, 0)
    case None => [s]
    case Some(i) => [s[..i]] + Split(s[i + |SEPARATOR|..])
  }

  function Tidy(pieces: seq<string>): seq<string> {
    if pieces == [] then []
    else (if Strip(pieces[0]) == "" then [] else [Strip(pieces[0])]) + Tidy(pieces[1..])
  }

  /** `split_chunks`: a result's pieces, each stripped, blank ones left out. */
  function SplitChunks(s: string): seq<string> { Tidy(Split(s)) }

  function Join(cs: seq<string>): string {
    if cs == [] then "" else if |cs| == 1 then cs[0] else cs[0] + SEPARATOR + Join(cs[1..])
  }

  predicate NoSeparator(c: string) { Find(c, 0).None? }

  /** The separator overlaps itself, so text ending like this runs into a following one. */
  predicate EndsOpen(c: string) { |c| >= 5 && c[|c| - 5..] == "\n\n---" }

  /** What one excerpt from the archive looks like once split and stripped. */
  predicate Piece(c: string) { Stripped(c) && NoSeparator(c) }

  lemma AtChar(s: string, i: nat, k: nat)
    requires At(s, i) && k < |SEPARATOR|
    ensures s[i + k] == SEPARATOR[k]
  {
    assert s[i..i + |SEPARATOR|][k] == s[i + k];
  }

  lemma NewlineFreeHasNoSeparator(c: string)
    requires '\n' !in c
    ensures NoSeparator(c)
  {
    var i := Find(c, 0);
    if i.Some? { AtChar(c, i.value, 0); }
  }

  lemma InsideOccurrence(c: string, rest: string, i: nat)
    requires i + |SEPARATOR| <= |c| && At(c + rest, i)
    ensures At(c, i)
  {
    assert c[i..i + |SEPARATOR|] == (c + rest)[i..i + |SEPARATOR|];
  }

  /** A separator that begins inside an excerpt and ends after it needs the excerpt to end open. */
  lemma StraddleIsOpen(c: string, rest: string, i: nat)
    requires Stripped(c) && i < |c| < i + |SEPARATOR| && At(c + SEPARATOR + rest, i)
    ensures EndsOpen(c)
  {
    var j := c + SEPARATOR + rest;
    var k := |c| - i;
    forall x | 0 <= x < k ensures c[i + x] == SEPARATOR[x] { AtChar(j, i, x); }
    AtChar(j, i, k);
    assert c[|c| - 1] == SEPARATOR[k - 1] && SEPARATOR[0] == SEPARATOR[k];
    assert k == 5;
    assert c[|c| - 5..] == SEPARATOR[..5];
  }

  /** After a closed excerpt the first separator is the one that was put there. */
  lemma FirstSeparator(c: string, rest: string)
    requires Piece(c) && !EndsOpen(c)
    ensures Find(c + SEPARATOR + rest, 0) == Some(|c|)
  {
    var j := c + SEPARATOR + rest;
    assert j[|c|..|c| + |SEPARATOR|] == SEPARATOR && At(j, |c|);
    var i := Find(j, 0);
    if i.Some? && i.value < |c| {
      if i.value + |SEPARATOR| <= |c| {
        assert j == c + (SEPARATOR + rest);
        InsideOccurrence(c, SEPARATOR + rest, i.value);
      } else {
        StraddleIsOpen(c, rest, i.value);
      }
    }
  }

  /** After an open excerpt the first separator starts inside it. */
  lemma EarlySeparator(c: string, rest: string)
    requires Piece(c) && EndsOpen(c)
    ensures Find(c + SEPARATOR + rest, 0).Some? && 0 < Find(c + SEPARATOR + rest, 0).value < |c|
  {
    var j := c + SEPARATOR + rest;
    var i := |c| - 5;
    assert j[i..i + |SEPARATOR|] == c[|c| - 5..] + SEPARATOR[..2];
    assert c[|c| - 5..] + SEPARATOR[..2] == SEPARATOR;
    assert At(j, i);
    var f := Find(j, 0).value;
    AtChar(j, f, 0);
    assert j[0] == c[0];
  }

  lemma ShorterFirstPiece(c: string, i: nat)
    requires Stripped(c) && 0 < i < |c|
    ensures Strip(c[..i]) != "" && Strip(c[..i]) != c
  {
    assert LStrip(c[..i]) == c[..i];
  }

  /** Only the last excerpt of a joined result may end in the open half of a separator. */
  predicate Closed(cs: seq<string>) {
    forall i :: 0 <= i < |cs| - 1 ==> !EndsOpen(cs[i])
  }

  lemma SplitSingle(c: string)
    requires Piece(c)
    ensures SplitChunks(c) == [c] && Closed([c])
  {
    StripFixes(c);
    assert Split(c) == [c] && [c][1..] == [];
    assert Tidy([c]) == [c] + Tidy([]);
  }

  lemma SplitAfterOpen(c: string, rest: string)
    requires Piece(c) && EndsOpen(c)
    ensures SplitChunks(c + SEPARATOR + rest) != [] && SplitChunks(c + SEPARATOR + rest)[0] != c
  {
    var j := c + SEPARATOR + rest;
    EarlySeparator(c, rest);
    var i := Find(j, 0).value;
    assert j[..i] == c[..i];
    ShorterFirstPiece(c, i);
    assert Split(j)[0] == c[..i];
  }

  lemma {:induction false} SplitAfterClosed(c: string, rest: string)
    requires Piece(c) && !EndsOpen(c)
    ensures SplitChunks(c + SEPARATOR + rest) == [c] + SplitChunks(rest)
  {
    var j := c + SEPARATOR + rest;
    FirstSeparator(c, rest);
    assert j[..|c|] == c && j[|c| + |SEPARATOR|..] == rest;
    assert Split(j) == [c] + Split(rest);
    StripFixes(c);
    assert ([c] + Split(rest))[1..] == Split(rest);
  }

  lemma SplitEmpty()
    ensures SplitChunks("") == [] && Closed([])
  {
    assert Find("", 0).None?;
    assert Split("") == [""];
    hide Find, Split;
    assert Strip("") == "" && [""][1..] == [];
  }

  lemma ClosedTail(cs: seq<string>)
    requires |cs| > 1
    ensures Closed(cs) <==> !EndsOpen(cs[0]) && Closed(cs[1..])
  {
    if !EndsOpen(cs[0]) && Closed(cs[1..]) {
      assert forall i :: 1 <= i < |cs| - 1 ==> cs[i] == cs[1..][i - 1];
    }
  }

  /** Splitting undoes joining exactly when no excerpt but the last ends open. */
  lemma {:induction false} SplitJoin(cs: seq<string>)
    requires forall i :: 0 <= i < |cs| ==> Piece(cs[i])
    ensures SplitChunks(Join(cs)) == cs <==> Closed(cs)
  {
    hide SplitChunks, EndsOpen, Stripped, NoSeparator, Closed;
    if cs == [] {
      SplitEmpty();
    } else if |cs| == 1 {
      SplitSingle(cs[0]);
    } else {
      ClosedTail(cs);
      if EndsOpen(cs[0]) {
        SplitAfterOpen(cs[0], Join(cs[1..]));
      } else {
        SplitAfterClosed(cs[0], Join(cs[1..]));
        SplitJoin(cs[1..]);
        assert cs == [cs[0]] + cs[1..];
      }
    }
  }

  lemma {:induction false} JoinIsStripped(cs: seq<string>)
    requires cs != [] && forall i :: 0 <= i < |cs| ==> Stripped(cs[i])
    ensures Stripped(Join(cs))
  {
    if |cs| > 1 {
      JoinIsStripped(cs[1..]);
      assert Join(cs)[|Join(cs)| - 1] == Join(cs[1..])[|Join(cs[1..])| - 1];
    }
  }
}
