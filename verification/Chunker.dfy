/**
 The paragraph chunker: a document is cut at blank lines, the pieces are trimmed, and the empty ones
 are dropped.  The configuration (strategy, size, overlap) is accepted and ignored.
 */
module Chunker {

  import opened Text

  /** A paragraph break starts at `i`. */
  predicate BreakAt(s: string, i: int) {
    0 <= i < |s| - 1 && s[i] == '\n' && s[i + 1] == '\n'
  }

  ghost predicate Unbroken(s: string) {
    forall i :: !BreakAt(s, i)
  }

  function FirstBreak(s: string, k: nat): (i: nat)
    requires k <= |s|
    ensures k <= i <= |s|
    decreases |s| - k
  {
    if k == |s| || BreakAt(s, k) then k else FirstBreak(s, k + 1)
  }

  /** `strings.Split(text, "\n\n")`. */
  function Paragraphs(s: string): seq<string>
    decreases |s|
  {
    var i := FirstBreak(s, 0);
    if BreakAt(s, i) then [s[..i]] + Paragraphs(s[i + 2..]) else [s]
  }

  /** `strings.Join(pieces, "\n\n")`. */
  function Join(pieces: seq<string>): string {
    if pieces == [] then ""
    else if |pieces| == 1 then pieces[0]
    else pieces[0] + "\n\n" + Join(pieces[1..])
  }

  /** No break in the piece, and none that its last newline begins with the separator after it. */
  ghost predicate Closed(s: string) {
    Unbroken(s) && (s != "" ==> s[|s| - 1] != '\n')
  }

  /** The leftmost cut: every piece but the last is closed. */
  ghost predicate Leftmost(pieces: seq<string>) {
    && pieces != []
    && Unbroken(pieces[|pieces| - 1])
    && forall i | 0 <= i < |pieces| - 1 :: Closed(pieces[i])
  }

  /** The text that `chunkText` keeps of a list of pieces. */
  function Kept(pieces: seq<string>): seq<string> {
    if pieces == [] then []
    else
      var p := Trim(pieces[0], GoSpace);
      (if p == "" then [] else [p]) + Kept(pieces[1..])
  }

  function Chunks(text: string): seq<string> {
    Kept(Paragraphs(text))
  }

  /** A chunk: not empty, no whitespace at either end, no paragraph break. */
  ghost predicate IsChunk(s: string) {
    s != "" && Trimmed(s, GoSpace) && Unbroken(s)
  }

  /** The characters that are not whitespace, in order. */
  function Visible(s: string): string {
    if s == "" then ""
    else (if GoSpace(s[0]) then "" else [s[0]]) + Visible(s[1..])
  }

  // ---------- strings.Split ----------

  lemma {:induction false} FirstBreakStops(s: string, k: nat)
    requires k <= |s|
    ensures var i := FirstBreak(s, k);
            (forall j | k <= j < i :: !BreakAt(s, j)) && (i < |s| ==> BreakAt(s, i))
    decreases |s| - k
  {
    if k < |s| && !BreakAt(s, k) {
      FirstBreakStops(s, k + 1);
    }
  }

  lemma FirstBreakAt(piece: string, rest: string)
    requires Closed(piece)
    ensures FirstBreak(piece + "\n\n" + rest, 0) == |piece|
  {
    var s := piece + "\n\n" + rest;
    FirstBreakStops(s, 0);
    assert BreakAt(s, |piece|);
    forall j | 0 <= j < |piece| ensures !BreakAt(s, j) {
      assert !BreakAt(piece, j);
      assert s[j] == piece[j];
    }
  }

  /** The part before the first break is closed. */
  lemma HeadIsClosed(s: string)
    requires BreakAt(s, FirstBreak(s, 0))
    ensures Closed(s[..FirstBreak(s, 0)])
  {
    FirstBreakStops(s, 0);
    var i := FirstBreak(s, 0);
    forall j ensures !BreakAt(s[..i], j) {
      assert 0 <= j < i ==> !BreakAt(s, j);
    }
    if i > 0 {
      assert !BreakAt(s, i - 1);
    }
  }

  lemma LeftmostCons(piece: string, pieces: seq<string>)
    requires Closed(piece) && Leftmost(pieces)
    ensures Leftmost([piece] + pieces)
    ensures Join([piece] + pieces) == piece + "\n\n" + Join(pieces)
  {
    var all := [piece] + pieces;
    assert all[1..] == pieces;
    assert forall k | 1 <= k < |all| :: all[k] == pieces[k - 1];
  }

  /** Cutting loses nothing and cuts at the leftmost breaks. */
  lemma {:induction false} ParagraphsCut(s: string)
    ensures Leftmost(Paragraphs(s)) && Join(Paragraphs(s)) == s
    decreases |s|
  {
    var i := FirstBreak(s, 0);
    if BreakAt(s, i) {
      ParagraphsCut(s[i + 2..]);
      HeadIsClosed(s);
      LeftmostCons(s[..i], Paragraphs(s[i + 2..]));
      assert s == s[..i] + "\n\n" + s[i + 2..];
    } else {
      FirstBreakStops(s, 0);
      assert Unbroken(s);
    }
  }

  lemma ParagraphsStep(piece: string, rest: string)
    requires Closed(piece)
    ensures Paragraphs(piece + "\n\n" + rest) == [piece] + Paragraphs(rest)
  {
    var s := piece + "\n\n" + rest;
    FirstBreakAt(piece, rest);
    assert BreakAt(s, |piece|);
    assert s[..|piece|] == piece && s[|piece| + 2..] == rest;
  }

  lemma LeftmostTail(pieces: seq<string>)
    requires Leftmost(pieces) && |pieces| > 1
    ensures Closed(pieces[0]) && Leftmost(pieces[1..])
    ensures Join(pieces) == pieces[0] + "\n\n" + Join(pieces[1..])
  {
    var rest := pieces[1..];
    assert forall i | 0 <= i < |rest| :: rest[i] == pieces[i + 1];
  }

  /** ... and there is only one such cut. */
  lemma {:induction false} ParagraphsOfJoin(pieces: seq<string>)
    requires Leftmost(pieces)
    ensures Paragraphs(Join(pieces)) == pieces
  {
    if |pieces| == 1 {
      FirstBreakStops(pieces[0], 0);
      assert !BreakAt(pieces[0], FirstBreak(pieces[0], 0));
    } else {
      LeftmostTail(pieces);
      ParagraphsOfJoin(pieces[1..]);
      ParagraphsStep(pieces[0], Join(pieces[1..]));
    }
  }

  // ---------- trimming a piece ----------

  lemma TrimIsSlice(s: string) returns (a: nat, b: nat)
    ensures a <= b <= |s| && Trim(s, GoSpace) == s[a..b]
    ensures forall i | 0 <= i < |s| && !(a <= i < b) :: GoSpace(s[i])
  {
    var r := TrimRight(s, GoSpace);
    RightEndStops(s, GoSpace, |s|);
    LeftEndStops(r, GoSpace, 0);
    a, b := LeftEnd(r, GoSpace, 0), |r|;
    assert forall i | 0 <= i < a :: r[i] == s[i];
  }

  lemma TrimKeepsUnbroken(s: string)
    requires Unbroken(s)
    ensures Unbroken(Trim(s, GoSpace))
  {
    var a, b := TrimIsSlice(s);
    forall i ensures !BreakAt(s[a..b], i) {
      assert !BreakAt(s, a + i);
    }
  }

  lemma {:induction false} KeptAreChunks(pieces: seq<string>)
    requires forall p <- pieces :: Unbroken(p)
    ensures forall c <- Kept(pieces) :: IsChunk(c)
  {
    if pieces != [] {
      TrimIsTrimmed(pieces[0], GoSpace);
      TrimKeepsUnbroken(pieces[0]);
      KeptAreChunks(pieces[1..]);
    }
  }

  /** Every chunk is a chunk. */
  lemma ChunksAreChunks(text: string)
    ensures forall c <- Chunks(text) :: IsChunk(c)
  {
    ParagraphsCut(text);
    var pieces := Paragraphs(text);
    forall p <- pieces ensures Unbroken(p) {
      var i :| 0 <= i < |pieces| && pieces[i] == p;
      assert i < |pieces| - 1 ==> Closed(pieces[i]);
    }
    KeptAreChunks(pieces);
  }

  lemma {:induction false} KeptKeepsChunks(chunks: seq<string>)
    requires forall c <- chunks :: IsChunk(c)
    ensures Kept(chunks) == chunks
  {
    if chunks != [] {
      var c := chunks[0];
      assert c in chunks;
      TrimUndoesPadding("", c, "", GoSpace);
      assert "" + c + "" == c;
      KeptKeepsChunks(chunks[1..]);
    }
  }

  lemma ChunksAreLeftmost(chunks: seq<string>)
    requires chunks != [] && forall c <- chunks :: IsChunk(c)
    ensures Leftmost(chunks)
  {
    forall i | 0 <= i < |chunks| ensures Closed(chunks[i]) {
      assert chunks[i] in chunks;
      assert !GoSpace(chunks[i][|chunks[i]| - 1]);
    }
  }

  lemma NoChunks()
    ensures Chunks("") == []
  {
    assert Trim("", GoSpace) == "";
    assert Paragraphs("") == [""];
  }

  /** Lists of chunks survive joining and chunking again: the chunker is onto them ... */
  lemma ChunksOfJoin(chunks: seq<string>)
    requires forall c <- chunks :: IsChunk(c)
    ensures Chunks(Join(chunks)) == chunks
  {
    if chunks == [] {
      NoChunks();
    } else {
      ChunksAreLeftmost(chunks);
      ParagraphsOfJoin(chunks);
      KeptKeepsChunks(chunks);
    }
  }

  /** ... so chunking the chunks of any text, joined by blank lines, returns them. */
  lemma RechunkingReturnsTheChunks(text: string)
    ensures Chunks(Join(Chunks(text))) == Chunks(text)
  {
    ChunksAreChunks(text);
    ChunksOfJoin(Chunks(text));
  }

  // ---------- nothing visible is lost ----------

  lemma {:induction false} VisibleConcat(a: string, b: string)
    ensures Visible(a + b) == Visible(a) + Visible(b)
  {
    if a == "" {
      assert a + b == b;
    } else {
      assert (a + b)[1..] == a[1..] + b;
      VisibleConcat(a[1..], b);
    }
  }

  lemma {:induction false} VisibleBlank(s: string)
    requires forall i | 0 <= i < |s| :: GoSpace(s[i])
    ensures Visible(s) == ""
  {
    if s != "" {
      assert forall i | 0 <= i < |s[1..]| :: s[1..][i] == s[i + 1];
      VisibleBlank(s[1..]);
    }
  }

  lemma VisibleTrim(s: string)
    ensures Visible(Trim(s, GoSpace)) == Visible(s)
  {
    var a, b := TrimIsSlice(s);
    assert s == s[..a] + s[a..b] + s[b..];
    VisibleConcat(s[..a] + s[a..b], s[b..]);
    VisibleConcat(s[..a], s[a..b]);
    VisibleBlank(s[..a]);
    VisibleBlank(s[b..]);
  }

  lemma {:induction false} VisibleJoin(pieces: seq<string>)
    ensures Visible(Join(pieces)) == Visible(Concat(pieces))
  {
    if |pieces| == 1 {
      assert pieces[1..] == [];
      assert Concat(pieces) == pieces[0] + "";
      assert pieces[0] + "" == pieces[0];
    } else if |pieces| > 1 {
      var rest := Join(pieces[1..]);
      VisibleJoin(pieces[1..]);
      VisibleConcat(pieces[0] + "\n\n", rest);
      VisibleConcat(pieces[0], "\n\n");
      VisibleBlank("\n\n");
      VisibleConcat(pieces[0], Concat(pieces[1..]));
    }
  }

  lemma {:induction false} VisibleKept(pieces: seq<string>)
    ensures Visible(Concat(Kept(pieces))) == Visible(Concat(pieces))
  {
    if pieces != [] {
      var p, more := Trim(pieces[0], GoSpace), Kept(pieces[1..]);
      VisibleKept(pieces[1..]);
      VisibleTrim(pieces[0]);
      VisibleConcat(pieces[0], Concat(pieces[1..]));
      if p != "" {
        assert Kept(pieces) == [p] + more && Kept(pieces)[1..] == more;
        VisibleConcat(p, Concat(more));
      } else {
        assert Kept(pieces) == more;
      }
    }
  }

  /** The chunks hold every non-whitespace character of the text, in order, and no other. */
  lemma NothingVisibleIsLost(text: string)
    ensures Visible(Concat(Chunks(text))) == Visible(text)
  {
    ParagraphsCut(text);
    VisibleKept(Paragraphs(text));
    VisibleJoin(Paragraphs(text));
  }

  // ---------- which paragraph is which chunk ----------

  /** At these positions, in order, the pieces are the kept ones; all others are blank. */
  ghost predicate ComeFrom(kept: seq<string>, pieces: seq<string>, at: seq<nat>) {
    && |at| == |kept|
    && (forall j, k | 0 <= j < k < |at| :: at[j] < at[k])
    && (forall k | 0 <= k < |at| :: at[k] < |pieces| && kept[k] == Trim(pieces[at[k]], GoSpace) != "")
    && (forall i: nat | i < |pieces| && i !in at :: Trim(pieces[i], GoSpace) == "")
  }

  lemma KeptOne(p: string)
    ensures Kept([p]) == if Trim(p, GoSpace) == "" then [] else [Trim(p, GoSpace)]
  {
    assert [p][1..] == [];
  }

  lemma OneMorePiece(kept: seq<string>, pieces: seq<string>, at: seq<nat>, p: string)
    requires ComeFrom(kept, pieces, at)
    ensures Trim(p, GoSpace) == "" ==> ComeFrom(kept, pieces + [p], at)
    ensures Trim(p, GoSpace) != "" ==> ComeFrom(kept + [Trim(p, GoSpace)], pieces + [p], at + [|pieces|])
  {
    forall i: nat | i < |pieces| && i !in at + [|pieces|] ensures i !in at {
      assert i in at ==> i in at + [|pieces|];
    }
    assert (at + [|pieces|])[|at|] == |pieces|;
  }

  lemma {:induction false} KeptComeFrom(pieces: seq<string>, n: nat) returns (at: seq<nat>)
    requires n <= |pieces|
    ensures ComeFrom(Kept(pieces[..n]), pieces[..n], at)
  {
    if n == 0 {
      at := [];
    } else {
      var before := KeptComeFrom(pieces, n - 1);
      var p := pieces[n - 1];
      assert pieces[..n] == pieces[..n - 1] + [p];
      KeptAppend(pieces[..n - 1], p);
      KeptOne(p);
      assert Kept(pieces[..n - 1]) + [] == Kept(pieces[..n - 1]);
      OneMorePiece(Kept(pieces[..n - 1]), pieces[..n - 1], before, p);
      at := if Trim(p, GoSpace) == "" then before else before + [n - 1];
    }
  }

  /** The chunks are the trimmed paragraphs, in order, without the blank ones. */
  lemma ChunksAreParagraphs(text: string) returns (at: seq<nat>)
    ensures ComeFrom(Chunks(text), Paragraphs(text), at)
  {
    var pieces := Paragraphs(text);
    at := KeptComeFrom(pieces, |pieces|);
    assert pieces[..|pieces|] == pieces;
  }

  // ---------- chunkText ----------

  lemma {:induction false} KeptAppend(pieces: seq<string>, p: string)
    ensures Kept(pieces + [p]) == Kept(pieces) + Kept([p])
  {
    if pieces == [] {
      assert pieces + [p] == [p];
    } else {
      assert (pieces + [p])[1..] == pieces[1..] + [p];
      KeptAppend(pieces[1..], p);
    }
  }

  method ChunkText(text: string) returns (chunks: seq<string>)
    ensures chunks == Chunks(text)
    ensures forall c <- chunks :: IsChunk(c)
    ensures Visible(Concat(chunks)) == Visible(text)
  {
    var parts := Paragraphs(text);
    chunks := [];
    for i := 0 to |parts|
      invariant chunks == Kept(parts[..i])
    {
      assert parts[..i + 1] == parts[..i] + [parts[i]];
      KeptAppend(parts[..i], parts[i]);
      var p := Trim(parts[i], GoSpace);
      if p != "" {
        chunks := chunks + [p];
      }
    }
    assert parts[..|parts|] == parts;
    ChunksAreChunks(text);
    NothingVisibleIsLost(text);
  }
}
