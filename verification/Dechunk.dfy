/** Reassembling a chunked HTTP body, on bytes. */
module Dechunk {
  import opened Wrappers

  type Byte = b: int | 0 <= b < 256
  type Bytes = seq<Byte>

  const CR: Byte := 13
  const LF: Byte := 10
  const SEMICOLON: Byte := 59
  const UNDERSCORE: Byte := 95
  const CRLF: Bytes := [CR, LF]

  // -- int(text, 16) --

  predicate IsSpace(b: Byte) { 9 <= b <= 13 || b == 32 }

  function HexDigit(b: Byte): Option<nat> {
    if 48 <= b <= 57 then Some(b - 48)
    else if 65 <= b <= 70 then Some(b - 55)
    else if 97 <= b <= 102 then Some(b - 87)
    else None
  }

  function LStrip(s: Bytes): Bytes { if s != [] && IsSpace(s[0]) then LStrip(s[1..]) else s }

  function RStrip(s: Bytes): Bytes { if s != [] && IsSpace(s[|s| - 1]) then RStrip(s[..|s| - 1]) else s }

  /** Hex digits, single underscores allowed between them. */
  function Digits(s: Bytes): Option<nat> {
    if s == [] || HexDigit(s[|s| - 1]).None? then None
    else
      var d := HexDigit(s[|s| - 1]).value;
      if |s| == 1 then Some(d)
      else
        var init := if s[|s| - 2] == UNDERSCORE then s[..|s| - 2] else s[..|s| - 1];
        match Digits(init)
        case None => None
        case Some(v) => Some(16 * v + d)
  }

  /** The "0x" prefix, if there is one, and an underscore after it. */
  function AfterPrefix(s: Bytes): Bytes {
    if |s| >= 2 && s[0] == 48 && (s[1] == 120 || s[1] == 88) then
      if |s| >= 3 && s[2] == UNDERSCORE then s[3..] else s[2..]
    else s
  }

  /** Python's `int(text, 16)`: surrounding space, a sign, a prefix and underscores are all allowed. */
  function ParseInt(text: Bytes): Option<int> {
    var s := RStrip(LStrip(text));
    if s != [] && (s[0] == 43 || s[0] == 45) then
      match Digits(AfterPrefix(s[1..]))
      case None => None
      case Some(v) => var value: int := v; Some(if s[0] == 45 then -value else value)
    else
      match Digits(AfterPrefix(s))
      case None => None
      case Some(v) => Some(v)
  }

  // -- the loop --

  function First(s: Bytes, b: Byte): (i: nat)
    ensures i <= |s| && (i < |s| ==> s[i] == b) && forall j :: 0 <= j < i ==> s[j] != b
  {
    if s == [] || s[0] == b then 0 else 1 + First(s[1..], b)
  }

  /** The first CRLF, or the length. */
  function FirstCrlf(s: Bytes): (i: nat)
    ensures i == |s| || (i + 2 <= |s| && s[i] == CR && s[i + 1] == LF)
    ensures forall j :: 0 <= j < i && j + 1 < |s| ==> !(s[j] == CR && s[j + 1] == LF)
  {
    if s == [] || CRLF <= s then 0 else 1 + FirstCrlf(s[1..])
  }

  /** `s[:n]` */
  function Take(s: Bytes, n: int): Bytes {
    if n >= |s| then s else if n >= 0 then s[..n] else if |s| + n >= 0 then s[..|s| + n] else []
  }

  /** `s[n:]` */
  function Drop(s: Bytes, n: int): (r: Bytes)
    ensures |r| <= |s|
  {
    if n >= |s| then [] else if n >= 0 then s[n..] else if |s| + n >= 0 then s[|s| + n..] else s
  }

  function SkipCrlf(s: Bytes): (r: Bytes)
    ensures |r| <= |s|
  { if CRLF <= s then s[2..] else s }

  /** The size a chunk's first line gives. */
  function SizeOf(line: Bytes): Option<int> { ParseInt(line[..First(line, SEMICOLON)]) }

  function Decode(body: Bytes): Bytes
    decreases |body|
  {
    var i := FirstCrlf(body);
    if i == |body| then []
    else
      var rest := body[i + 2..];
      match SizeOf(body[..i])
      case None => []
      case Some(size) => if size == 0 then [] else Take(rest, size) + Decode(SkipCrlf(Drop(rest, size)))
  }

  /** `_dechunk`: ends on every input, negative sizes included. */
  method Dechunk(body: Bytes) returns (out: Bytes)
    ensures out == Decode(body)
  {
    hide SizeOf, FirstCrlf, Take, Drop, SkipCrlf;
    out := [];
    var left := body;
    while left != []
      invariant out + Decode(left) == Decode(body)
      decreases |left|
    {
      var i := FirstCrlf(left);
      if i == |left| { return; }
      var rest := left[i + 2..];
      var size := SizeOf(left[..i]);
      if size.None? || size.value == 0 { return; }
      var data, next := Take(rest, size.value), SkipCrlf(Drop(rest, size.value));
      assert Decode(left) == data + Decode(next);
      assert out + (data + Decode(next)) == out + data + Decode(next);
      out, left := out + data, next;
    }
  }

  // -- the chunked coding, section 7.1 of RFC 9112 --

  /** One chunk: its size in hex digits, an extension, and its data. */
  datatype Piece = Piece(size: Bytes, ext: Bytes, data: Bytes)

  predicate AllHex(s: Bytes) { forall i :: 0 <= i < |s| ==> HexDigit(s[i]).Some? }

  function HexValue(s: Bytes): nat
    requires AllHex(s)
  {
    if s == [] then 0 else 16 * HexValue(s[..|s| - 1]) + HexDigit(s[|s| - 1]).value
  }

  /** No extension, or one after optional blanks and a semicolon that holds no CRLF. */
  predicate GoodExt(ext: Bytes) {
    var n := First(ext, SEMICOLON);
    ext == [] || (n < |ext| && FirstCrlf(ext) == |ext| && forall k :: 0 <= k < n ==> ext[k] == 32 || ext[k] == 9)
  }

  predicate SizeLine(size: Bytes, ext: Bytes, n: nat) {
    size != [] && AllHex(size) && HexValue(size) == n && GoodExt(ext)
  }

  predicate GoodPiece(p: Piece) { p.data != [] && SizeLine(p.size, p.ext, |p.data|) }

  function EncodePiece(p: Piece): Bytes { p.size + p.ext + CRLF + p.data + CRLF }

  function Encode(ps: seq<Piece>): Bytes {
    if ps == [] then [] else EncodePiece(ps[0]) + Encode(ps[1..])
  }

  function Content(ps: seq<Piece>): Bytes {
    if ps == [] then [] else ps[0].data + Content(ps[1..])
  }

  lemma {:induction false} FirstIs(s: Bytes, b: Byte, k: nat)
    requires k <= |s| && (k < |s| ==> s[k] == b) && forall j :: 0 <= j < k ==> s[j] != b
    ensures First(s, b) == k
  {
    if k > 0 { FirstIs(s[1..], b, k - 1); }
  }

  lemma {:induction false} FirstCrlfIs(s: Bytes, k: nat)
    requires k + 2 <= |s| && s[k] == CR && s[k + 1] == LF
    requires forall j :: 0 <= j < k ==> !(s[j] == CR && s[j + 1] == LF)
    ensures FirstCrlf(s) == k
  {
    if k > 0 { FirstCrlfIs(s[1..], k - 1); }
  }

  lemma {:induction false} NoCrlf(s: Bytes)
    requires forall j :: 0 <= j < |s| - 1 ==> !(s[j] == CR && s[j + 1] == LF)
    ensures FirstCrlf(s) == |s|
  {
    if s != [] { NoCrlf(s[1..]); }
  }

  lemma {:induction false} DigitsOfHex(s: Bytes)
    requires s != [] && AllHex(s)
    ensures Digits(s) == Some(HexValue(s))
  {
    if |s| > 1 {
      assert HexDigit(s[|s| - 2]).Some?;
      DigitsOfHex(s[..|s| - 1]);
    }
  }

  lemma {:induction false} RStripBlanks(s: Bytes, blanks: Bytes)
    requires s != [] && !IsSpace(s[|s| - 1]) && forall k :: 0 <= k < |blanks| ==> IsSpace(blanks[k])
    ensures RStrip(s + blanks) == s
  {
    var t := s + blanks;
    if blanks == [] {
      assert t == s;
    } else {
      var init := blanks[..|blanks| - 1];
      assert t[..|t| - 1] == s + init && t[|t| - 1] == blanks[|blanks| - 1];
      RStripBlanks(s, init);
    }
  }

  /** The size line of a well-formed chunk gives the size, whatever the extension. */
  lemma SizeLineParses(size: Bytes, ext: Bytes, n: nat)
    requires SizeLine(size, ext, n)
    ensures SizeOf(size + ext) == Some(n)
  {
    var line := size + ext;
    var e := First(ext, SEMICOLON);
    forall j | 0 <= j < |size| ensures line[j] != SEMICOLON { assert HexDigit(size[j]).Some?; }
    FirstIs(line, SEMICOLON, |size| + e);
    assert line[..|size| + e] == size + ext[..e];
    assert HexDigit(size[0]).Some? && HexDigit(size[|size| - 1]).Some?;
    LStripKeeps(size + ext[..e]);
    RStripBlanks(size, ext[..e]);
    DigitsOfHex(size);
    if |size| > 1 { assert HexDigit(size[1]).Some?; }
  }

  lemma LStripKeeps(s: Bytes)
    requires s != [] && !IsSpace(s[0])
    ensures LStrip(s) == s
  {
  }

  /** The first CRLF of a chunk is the one that ends its size line. */
  lemma LineEnds(size: Bytes, ext: Bytes, n: nat, after: Bytes)
    requires SizeLine(size, ext, n)
    ensures FirstCrlf(size + ext + CRLF + after) == |size + ext|
  {
    hide HexValue;
    var s := size + ext + CRLF + after;
    var k := |size + ext|;
    forall j | 0 <= j < k ensures !(s[j] == CR && s[j + 1] == LF) {
      if j < |size| {
        assert HexDigit(size[j]).Some? && s[j] == size[j];
      } else {
        assert s[j] == ext[j - |size|];
        if j + 1 < k { assert s[j + 1] == ext[j + 1 - |size|]; }
      }
    }
    FirstCrlfIs(s, k);
  }

  /** Cut before its size line is complete, a chunk decodes to nothing. */
  lemma CutLine(body: Bytes, k: nat, n: nat)
    requires FirstCrlf(body) == k && k + 2 <= |body| && n < k + 2
    ensures Decode(body[..n]) == []
  {
    var cut := body[..n];
    forall j | 0 <= j < |cut| - 1 ensures !(cut[j] == CR && cut[j + 1] == LF) {
      assert cut[j] == body[j] && cut[j + 1] == body[j + 1];
    }
    NoCrlf(cut);
  }

  /** After the last chunk nothing more is read, however much of it there is. */
  lemma {:induction false} LastChunkDecodes(size: Bytes, ext: Bytes, trailer: Bytes, n: nat)
    requires SizeLine(size, ext, 0) && n <= |size + ext + CRLF + trailer|
    ensures Decode((size + ext + CRLF + trailer)[..n]) == []
  {
    hide SizeOf, HexValue;
    var s := size + ext + CRLF + trailer;
    var k := |size + ext|;
    LineEnds(size, ext, 0, trailer);
    if n < k + 2 {
      CutLine(s, k, n);
    } else {
      var cut := s[..n];
      assert cut == size + ext + CRLF + trailer[..n - k - 2];
      LineEnds(size, ext, 0, trailer[..n - k - 2]);
      assert cut[..k] == size + ext;
      SizeLineParses(size, ext, 0);
    }
  }

  /** One turn of the loop on a well-formed size line. */
  lemma PieceStep(size: Bytes, ext: Bytes, n: nat, rest: Bytes)
    requires SizeLine(size, ext, n) && n > 0
    ensures Decode(size + ext + CRLF + rest) == Take(rest, n) + Decode(SkipCrlf(Drop(rest, n)))
  {
    hide SizeOf, HexValue, Take, Drop, SkipCrlf, SizeLine;
    var body := size + ext + CRLF + rest;
    var k := |size + ext|;
    LineEnds(size, ext, n, rest);
    assert body[..k] == size + ext && body[k + 2..] == rest;
    SizeLineParses(size, ext, n);
  }

  /** What the loop takes of a chunk's data, and what it leaves. */
  lemma DataTaken(data: Bytes, after: Bytes, m: nat)
    requires m <= |data + CRLF + after|
    ensures var rest, left := (data + CRLF + after)[..m], |data| + 2;
      && Take(rest, |data|) <= data
      && (m >= left ==> Take(rest, |data|) == data && SkipCrlf(Drop(rest, |data|)) == after[..m - left])
      && (m < left ==> Decode(SkipCrlf(Drop(rest, |data|))) == [])
  {
    hide SizeOf;
    var rest := (data + CRLF + after)[..m];
    if m >= |data| + 2 {
      assert rest[..|data|] == data && rest[|data|..] == CRLF + after[..m - |data| - 2];
    } else if m == |data| + 1 {
      assert rest[..|data|] == data && rest[|data|..] == [CR];
      NoCrlf([CR]);
    } else {
      assert rest == data[..m];
    }
  }

  /** One chunk, cut anywhere after its size line: the data that is there, then whatever follows it. */
  lemma {:induction false} PieceDecodes(p: Piece, after: Bytes, n: nat)
    requires GoodPiece(p) && |p.size + p.ext| + 2 <= n <= |EncodePiece(p) + after|
    ensures var whole, cut := EncodePiece(p), (EncodePiece(p) + after)[..n];
      if n >= |whole| then Decode(cut) == p.data + Decode(after[..n - |whole|])
      else Decode(cut) <= p.data
  {
    hide SizeLine, Take, Drop, SkipCrlf, Decode;
    var line, data := p.size + p.ext, p.data + CRLF + after;
    assert EncodePiece(p) + after == line + CRLF + data;
    var rest := data[..n - |line| - 2];
    assert (EncodePiece(p) + after)[..n] == line + CRLF + rest;
    PieceStep(p.size, p.ext, |p.data|, rest);
    DataTaken(p.data, after, n - |line| - 2);
  }

  /**
    Decoding inverts the chunked coding: for any division into non-empty chunks, with any
    extensions, last chunk and trailer, all of the content comes back, and a body cut short
    anywhere gives a prefix of it.
  */
  lemma {:induction false} DecodeInvertsEncode(ps: seq<Piece>, size: Bytes, ext: Bytes, trailer: Bytes, n: nat)
    requires forall i :: 0 <= i < |ps| ==> GoodPiece(ps[i])
    requires SizeLine(size, ext, 0) && n <= |Encode(ps) + (size + ext + CRLF + trailer)|
    ensures Decode((Encode(ps) + (size + ext + CRLF + trailer))[..n]) <= Content(ps)
    ensures n >= |Encode(ps)| ==> Decode((Encode(ps) + (size + ext + CRLF + trailer))[..n]) == Content(ps)
    decreases |ps|
  {
    hide Decode, GoodPiece, SizeLine, EncodePiece;
    var last := size + ext + CRLF + trailer;
    if ps == [] {
      assert Encode(ps) + last == last;
      LastChunkDecodes(size, ext, trailer, n);
    } else {
      var p, more := ps[0], ps[1..];
      var whole, after := EncodePiece(p), Encode(more) + last;
      assert Encode(ps) + last == whole + after;
      var k := |p.size + p.ext|;
      if n < k + 2 {
        CutInFirstLine(p, after, n);
      } else {
        PieceDecodes(p, after, n);
        if n >= |whole| {
          DecodeInvertsEncode(more, size, ext, trailer, n - |whole|);
        } else {
          PieceLength(p);
        }
      }
    }
  }

  lemma PieceLength(p: Piece)
    ensures |EncodePiece(p)| == |p.size + p.ext| + |p.data| + 4
  {
  }

  lemma CutInFirstLine(p: Piece, after: Bytes, n: nat)
    requires GoodPiece(p) && n < |p.size + p.ext| + 2
    ensures n <= |EncodePiece(p)| && Decode((EncodePiece(p) + after)[..n]) == []
    ensures n < |EncodePiece(p)|
  {
    hide HexValue, SizeOf;
    var rest := p.data + CRLF + after;
    assert EncodePiece(p) + after == p.size + p.ext + CRLF + rest;
    LineEnds(p.size, p.ext, |p.data|, rest);
    CutLine(EncodePiece(p) + after, |p.size + p.ext|, n);
  }
}
