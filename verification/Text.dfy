/**
 Strings as both stream parsers see them: the whitespace each language trims, the trims
 themselves, and lines.  A character is a decoded code point; decoding is not modelled.
 */
module Text {

  // ---------- whitespace ----------

  /** Whitespace for both `strings.TrimSpace` in Go and `String.prototype.trim` in JavaScript. */
  predicate SharedSpace(c: char) {
    var n := c as int;
    || 0x09 <= n <= 0x0D || n == 0x20 || n == 0xA0 || n == 0x1680
    || 0x2000 <= n <= 0x200A || n == 0x2028 || n == 0x2029 || n == 0x202F || n == 0x205F || n == 0x3000
  }

  /** `unicode.IsSpace`: also NEXT LINE. */
  predicate GoSpace(c: char) {
    SharedSpace(c) || c as int == 0x85
  }

  /** ECMAScript white space and line terminators: also the byte order mark. */
  predicate JsSpace(c: char) {
    SharedSpace(c) || c as int == 0xFEFF
  }

  /** All that is trimmed, one by one: 24 code points in both languages and one more in each. */
  lemma WhiteSpaceIs(c: char)
    ensures var shared := {9, 10, 11, 12, 13, 32, 160, 5760, 8192, 8193, 8194, 8195, 8196, 8197, 8198, 8199, 8200, 8201,
                           8202, 8232, 8233, 8239, 8287, 12288};
            && (GoSpace(c) <==> c as int in shared + {133})
            && (JsSpace(c) <==> c as int in shared + {65279})
  {
  }

  /** The two characters that exactly one of the two trims removes. */
  predicate Contested(c: char) {
    GoSpace(c) != JsSpace(c)
  }

  // ---------- trimming ----------

  /** The first position from `k` on that holds no whitespace. */
  function LeftEnd(s: string, space: char -> bool, k: nat): (n: nat)
    requires k <= |s|
    ensures k <= n <= |s|
    decreases |s| - k
  {
    if k < |s| && space(s[k]) then LeftEnd(s, space, k + 1) else k
  }

  /** The position after the last one below `k` that holds no whitespace. */
  function RightEnd(s: string, space: char -> bool, k: nat): (n: nat)
    requires k <= |s|
    ensures n <= k
  {
    if k > 0 && space(s[k - 1]) then RightEnd(s, space, k - 1) else k
  }

  function TrimLeft(s: string, space: char -> bool): string {
    s[LeftEnd(s, space, 0)..]
  }

  function TrimRight(s: string, space: char -> bool): string {
    s[..RightEnd(s, space, |s|)]
  }

  function Trim(s: string, space: char -> bool): string {
    TrimLeft(TrimRight(s, space), space)
  }

  /** Neither end of the string is whitespace. */
  predicate Trimmed(s: string, space: char -> bool) {
    s != "" ==> !space(s[0]) && !space(s[|s| - 1])
  }

  lemma {:induction false} LeftEndStops(s: string, space: char -> bool, k: nat)
    requires k <= |s|
    ensures var n := LeftEnd(s, space, k);
            (forall i | k <= i < n :: space(s[i])) && (n < |s| ==> !space(s[n]))
    decreases |s| - k
  {
    if k < |s| && space(s[k]) {
      LeftEndStops(s, space, k + 1);
    }
  }

  lemma {:induction false} RightEndStops(s: string, space: char -> bool, k: nat)
    requires k <= |s|
    ensures var n := RightEnd(s, space, k);
            (forall i | n <= i < k :: space(s[i])) && (n > 0 ==> !space(s[n - 1]))
  {
    if k > 0 && space(s[k - 1]) {
      RightEndStops(s, space, k - 1);
    }
  }

  lemma TrimIsTrimmed(s: string, space: char -> bool)
    ensures Trimmed(Trim(s, space), space)
  {
    var r := TrimRight(s, space);
    RightEndStops(s, space, |s|);
    LeftEndStops(r, space, 0);
  }

  /** A trimmed string with whitespace put around it trims back to itself. */
  lemma TrimUndoesPadding(before: string, s: string, after: string, space: char -> bool)
    requires Trimmed(s, space)
    requires forall c <- before :: space(c)
    requires forall c <- after :: space(c)
    ensures Trim(before + s + after, space) == s
  {
    TrimRightDrops(before + s, after, space);
    if s == "" {
      assert before + s == "" + before;
      TrimRightDrops("", before, space);
    } else {
      assert (before + s)[|before + s| - 1] == s[|s| - 1];
      assert TrimRight(before + s, space) == before + s;
      TrimLeftDrops(before, s, space);
    }
  }

  lemma TrimRightDrops(s: string, after: string, space: char -> bool)
    requires forall c <- after :: space(c)
    ensures TrimRight(s + after, space) == TrimRight(s, space)
  {
    var t := s + after;
    RightEndStops(t, space, |t|);
    RightEndStops(s, space, |s|);
    var n, m := RightEnd(t, space, |t|), RightEnd(s, space, |s|);
    forall i | |s| <= i < |t| ensures space(t[i]) {
      assert t[i] == after[i - |s|];
    }
    assert n <= |s|;
    assert n > 0 ==> t[n - 1] == s[n - 1];
    assert m > 0 ==> t[m - 1] == s[m - 1];
  }

  lemma TrimLeftDrops(before: string, s: string, space: char -> bool)
    requires forall c <- before :: space(c)
    requires s != "" && !space(s[0])
    ensures TrimLeft(before + s, space) == s
  {
    var t := before + s;
    LeftEndStops(t, space, 0);
    var n := LeftEnd(t, space, 0);
    assert t[|before|] == s[0];
    forall i | 0 <= i < |before| ensures space(t[i]) {
      assert t[i] == before[i];
    }
    assert n == |before|;
  }

  /** Without a contested character the Go and the JavaScript trims agree. */
  lemma TrimsAgree(s: string)
    requires forall c <- s :: !Contested(c)
    ensures Trim(s, GoSpace) == Trim(s, JsSpace)
  {
    TrimRightsAgree(s);
    TrimLeftsAgree(TrimRight(s, GoSpace));
  }

  lemma TrimRightsAgree(s: string)
    requires forall c <- s :: !Contested(c)
    ensures TrimRight(s, GoSpace) == TrimRight(s, JsSpace)
    ensures forall c <- TrimRight(s, GoSpace) :: c in s
  {
    RightEndsAgree(s, |s|);
  }

  lemma {:induction false} RightEndsAgree(s: string, k: nat)
    requires k <= |s| && forall c <- s :: !Contested(c)
    ensures RightEnd(s, GoSpace, k) == RightEnd(s, JsSpace, k)
  {
    if k > 0 {
      assert s[k - 1] in s;
      RightEndsAgree(s, k - 1);
    }
  }

  lemma TrimLeftsAgree(s: string)
    requires forall c <- s :: !Contested(c)
    ensures TrimLeft(s, GoSpace) == TrimLeft(s, JsSpace)
  {
    LeftEndsAgree(s, 0);
  }

  lemma {:induction false} LeftEndsAgree(s: string, k: nat)
    requires k <= |s| && forall c <- s :: !Contested(c)
    ensures LeftEnd(s, GoSpace, k) == LeftEnd(s, JsSpace, k)
    decreases |s| - k
  {
    if k < |s| {
      assert s[k] in s;
      LeftEndsAgree(s, k + 1);
    }
  }

  // ---------- searching and splitting ----------

  /** Position of the first `c`, or the length when there is none. */
  function IndexOf(s: string, c: char): (i: nat)
    ensures i <= |s|
  {
    IndexFrom(s, c, 0)
  }

  function IndexFrom(s: string, c: char, k: nat): (i: nat)
    requires k <= |s|
    ensures k <= i <= |s|
    decreases |s| - k
  {
    if k == |s| || s[k] == c then k else IndexFrom(s, c, k + 1)
  }

  lemma {:induction false} IndexFromStops(s: string, c: char, k: nat)
    requires k <= |s|
    ensures var i := IndexFrom(s, c, k);
            (forall j | k <= j < i :: s[j] != c) && (i < |s| ==> s[i] == c)
    decreases |s| - k
  {
    if k < |s| && s[k] != c {
      IndexFromStops(s, c, k + 1);
    }
  }

  lemma IndexOfFirst(s: string, c: char)
    ensures c !in s[..IndexOf(s, c)]
    ensures IndexOf(s, c) < |s| ==> s[IndexOf(s, c)] == c
    ensures IndexOf(s, c) < |s| <==> c in s
  {
    IndexFromStops(s, c, 0);
  }

  /** The first occurrence ends `line` when `line` has none. */
  lemma IndexOfAt(line: string, c: char, rest: string)
    requires c !in line
    ensures IndexOf(line + [c] + rest, c) == |line|
  {
    var s := line + [c] + rest;
    IndexFromStops(s, c, 0);
    var i := IndexOf(s, c);
    assert s[|line|] == c;
    forall j | 0 <= j < |line| ensures s[j] != c {
      assert s[j] == line[j];
    }
    assert i == |line|;
  }

  /** `s.split(c)`: the pieces between the occurrences of `c`, always at least one. */
  function SplitOn(s: string, c: char): (pieces: seq<string>)
    ensures |pieces| >= 1
    decreases |s|
  {
    var i := IndexOf(s, c);
    if i == |s| then [s] else [s[..i]] + SplitOn(s[i + 1..], c)
  }

  lemma SplitCut(s: string, c: char)
    requires IndexOf(s, c) < |s|
    ensures SplitOn(s, c) == [s[..IndexOf(s, c)]] + SplitOn(s[IndexOf(s, c) + 1..], c)
    ensures s == s[..IndexOf(s, c)] + [c] + s[IndexOf(s, c) + 1..]
  {
    IndexOfFirst(s, c);
  }

  lemma {:induction false} SplitPieces(s: string, c: char)
    ensures forall p <- SplitOn(s, c) :: c !in p
    decreases |s|
  {
    IndexOfFirst(s, c);
    var i := IndexOf(s, c);
    if i < |s| {
      SplitPieces(s[i + 1..], c);
      SplitCut(s, c);
    } else {
      assert s == s[..i];
    }
  }

  /** Splitting a text whose first separator ends the piece `line`. */
  lemma SplitCons(line: string, c: char, rest: string)
    requires c !in line
    ensures SplitOn(line + [c] + rest, c) == [line] + SplitOn(rest, c)
  {
    var s := line + [c] + rest;
    IndexOfAt(line, c, rest);
    assert s[..|line|] == line && s[|line| + 1..] == rest;
  }

  /** Every line with its newline. */
  function Unlines(lines: seq<string>): string {
    if lines == [] then "" else lines[0] + "\n" + Unlines(lines[1..])
  }

  lemma {:induction false} UnlinesAppend(a: seq<string>, b: seq<string>)
    ensures Unlines(a + b) == Unlines(a) + Unlines(b)
  {
    if a == [] {
      assert a + b == b;
    } else {
      assert (a + b)[1..] == a[1..] + b;
      UnlinesAppend(a[1..], b);
    }
  }

  lemma SplitFirst(lines: seq<string>, rest: string)
    requires lines != [] && '\n' !in lines[0]
    ensures SplitOn(Unlines(lines) + rest, '\n') == [lines[0]] + SplitOn(Unlines(lines[1..]) + rest, '\n')
  {
    var more := Unlines(lines[1..]) + rest;
    assert Unlines(lines) + rest == lines[0] + "\n" + more;
    SplitCons(lines[0], '\n', more);
  }

  /** Splitting undoes `Unlines`. */
  lemma {:induction false} SplitUnlines(lines: seq<string>, rest: string)
    requires forall line <- lines :: '\n' !in line
    ensures SplitOn(Unlines(lines) + rest, '\n') == lines + SplitOn(rest, '\n')
  {
    if lines == [] {
      assert Unlines(lines) + rest == rest;
    } else {
      SplitUnlines(lines[1..], rest);
      SplitFirst(lines, rest);
      ConsAppend(lines, SplitOn(rest, '\n'));
    }
  }

  lemma ConsAppend<T>(s: seq<T>, more: seq<T>)
    requires s != []
    ensures [s[0]] + (s[1..] + more) == s + more
  {
  }

  /** A text cut inside `lines` consists of the first lines and a beginning of the next. */
  lemma {:induction false} CutLines(lines: seq<string>, p: string) returns (k: nat, q: string)
    requires forall line <- lines :: '\n' !in line
    requires p <= Unlines(lines) && |p| < |Unlines(lines)|
    ensures k < |lines| && q <= lines[k]
    ensures SplitOn(p, '\n') == lines[..k] + [q]
    ensures |p| == |Unlines(lines[..k])| + |q|
  {
    var line := lines[0];
    var n := |line| + 1;
    if |p| < n {
      k, q := 0, p;
      assert p == Unlines(lines)[..|p|] == line[..|p|];
      assert '\n' !in line;
      IndexOfFirst(p, '\n');
    } else {
      var p' := p[n..];
      assert p == Unlines(lines)[..|p|];
      assert p == line + "\n" + p';
      k, q := CutLines(lines[1..], p');
      SplitCons(line, '\n', p');
      assert lines[..k + 1] == [line] + lines[1..][..k];
      k := k + 1;
    }
  }

  /** All pieces, one after the other. */
  function Concat(pieces: seq<string>): string {
    if pieces == [] then "" else pieces[0] + Concat(pieces[1..])
  }

  lemma {:induction false} ConcatAppend(pieces: seq<string>, last: string)
    ensures Concat(pieces + [last]) == Concat(pieces) + last
  {
    if pieces == [] {
      assert pieces + [last] == [last];
      assert [last][1..] == [];
    } else {
      assert (pieces + [last])[1..] == pieces[1..] + [last];
      ConcatAppend(pieces[1..], last);
    }
  }
}
