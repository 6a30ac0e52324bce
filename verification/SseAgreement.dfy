/** The Go reader and the browser parser agree: same events from the same stream. */
module SseAgreement {
  import opened Text
  import opened SseFormat
  import Go = GoReader
  import Ts = TsStream

  // ---------- streams on which they must agree ----------

  /** A line that is blank for Go, which strips carriage returns, but not for the browser. */
  predicate BareCr(line: string) {
    line != "" && Go.StripEol(line) == ""
  }

  /** Both trims make the same of it. */
  predicate TrimsAlike(v: string) {
    Trim(v, GoSpace) == Trim(v, JsSpace)
  }

  /** Both trims make the same of the value of the field that the line has, if it has one. */
  predicate SameValue(line: string) {
    if "id:" <= line then TrimsAlike(line[3..])
    else if "event:" <= line then TrimsAlike(line[6..])
    else if "data:" <= line then TrimsAlike(line[5..])
    else true
  }

  predicate Qualifies(line: string) {
    !BareCr(line) && SameValue(line)
  }

  /** The condition, on the lines of the stream; the last one is unfinished and its value is not read. */
  predicate Compatible(text: string) {
    CompatibleLines(SplitOn(text, '\n'))
  }

  predicate CompatibleLines(lines: seq<string>)
    requires |lines| >= 1
  {
    (forall i | 0 <= i < |lines| - 1 :: Qualifies(lines[i])) && !BareCr(lines[|lines| - 1])
  }

  /** A stream without carriage returns and without the two contested characters is compatible. */
  lemma PlainIsCompatible(text: string)
    requires forall c <- text :: c != '\r' && !Contested(c)
    ensures Compatible(text)
  {
    var lines := SplitOn(text, '\n');
    PiecesOnlyHave(text, '\n');
    SplitPieces(text, '\n');
    forall line <- lines ensures Qualifies(line) {
      assert '\n' !in line;
      if line != "" {
        var c := line[|line| - 1];
        assert c in line;
        assert c in text;
        assert Go.StripEol(line) == line;
      }
      forall k: nat | k <= |line| ensures TrimsAlike(line[k..]) {
        assert forall c <- line[k..] :: c in line;
        TrimsAgree(line[k..]);
      }
    }
  }

  lemma {:induction false} PiecesOnlyHave(s: string, c: char)
    ensures forall p <- SplitOn(s, c), d <- p :: d in s
    decreases |s|
  {
    var i := IndexOf(s, c);
    if i < |s| {
      SplitCut(s, c);
      PiecesOnlyHave(s[i + 1..], c);
      forall p <- SplitOn(s, c), d <- p ensures d in s {
        if p != s[..i] {
          assert p in SplitOn(s[i + 1..], c);
        }
      }
    }
  }

  // ---------- one line ----------

  /** What `TrimRight` removes is a run of the removed characters. */
  lemma TrimRightRest(s: string, space: char -> bool)
    ensures var n := |TrimRight(s, space)|;
            n <= |s| && TrimRight(s, space) == s[..n] && forall c <- s[n..] :: space(c)
  {
    RightEndStops(s, space, |s|);
  }

  /** The line does the same to the pending fields `f` in both parsers, and is blank for both or for none. */
  predicate SameEffect(f: Fields, line: string) {
    && (line == "" <==> Go.StripEol(line) == "")
    && Go.GoField(f, Go.StripEol(line)) == Ts.TsField(f, line)
  }

  /** The effect of a line with its value trimmed this way. */
  function Effect(f: Fields, line: string, space: char -> bool): Fields {
    if "id:" <= line then f.(id := Trim(line[3..], space))
    else if "event:" <= line then f.(name := Trim(line[6..], space))
    else if "data:" <= line then f.(data := Trim(line[5..], space))
    else f
  }

  /** The two parsers differ in the trim, and in when a line is blank. */
  lemma FieldEffects(f: Fields, line: string)
    requires '\n' !in line
    ensures Go.GoField(f, Go.StripEol(line)) == Effect(f, line, GoSpace)
    ensures Ts.TsField(f, line) == Effect(f, line, JsSpace)
  {
    PrefixSurvives(line, "id:");
    PrefixSurvives(line, "event:");
    PrefixSurvives(line, "data:");
    TrimRightRest(line, Go.IsEol);
    if "id:" <= line {
      ValueSurvives(line, 3);
      assert line[0] == 'i';
    } else if "event:" <= line {
      ValueSurvives(line, 6);
      assert line[0] == 'e';
    } else if "data:" <= line {
      ValueSurvives(line, 5);
      assert line[0] == 'd';
    }
  }

  /** A line has the same effect in both parsers, whatever is pending, exactly when it qualifies. */
  lemma SameEffectIff(line: string)
    requires '\n' !in line
    ensures Qualifies(line) <==> forall f :: SameEffect(f, line)
  {
    forall f ensures SameEffect(f, line) <==> Qualifies(line) {
      SameEffectOn(f, line);
    }
    assert SameEffect(NO_FIELDS, line) <==> Qualifies(line);
  }

  lemma SameEffectOn(f: Fields, line: string)
    requires '\n' !in line
    ensures SameEffect(f, line) <==> Qualifies(line)
  {
    FieldEffects(f, line);
    TrimRightRest(line, Go.IsEol);
    SameValueIff(f, line);
  }

  lemma SameValueIff(f: Fields, line: string)
    ensures SameValue(line) <==> Effect(f, line, GoSpace) == Effect(f, line, JsSpace)
  {
    if "id:" <= line {
      assert f.(id := Trim(line[3..], GoSpace)).id == Trim(line[3..], GoSpace);
    } else if "event:" <= line {
      assert f.(name := Trim(line[6..], GoSpace)).name == Trim(line[6..], GoSpace);
    } else if "data:" <= line {
      assert f.(data := Trim(line[5..], GoSpace)).data == Trim(line[5..], GoSpace);
    }
  }

  lemma PrefixSurvives(line: string, p: string)
    requires p != "" && p[|p| - 1] == ':'
    ensures p <= line <==> p <= Go.StripEol(line)
  {
    TrimRightRest(line, Go.IsEol);
    var n := |Go.StripEol(line)|;
    if p <= line {
      assert line[|p| - 1] == ':';
      forall k | n <= k < |line| ensures Go.IsEol(line[k]) {
        assert line[k] == line[n..][k - n];
      }
    }
  }

  lemma ValueSurvives(line: string, k: nat)
    requires k <= |Go.StripEol(line)| <= |line|
    ensures Trim(Go.StripEol(line)[k..], GoSpace) == Trim(line[k..], GoSpace)
  {
    TrimRightRest(line, Go.IsEol);
    var stripped := Go.StripEol(line);
    var tail := line[|stripped|..];
    assert line[k..] == stripped[k..] + tail;
    forall c <- tail ensures GoSpace(c) {
      assert Go.IsEol(c);
    }
    TrimRightDrops(stripped[k..], tail, GoSpace);
  }

  // ---------- whole streams ----------

  /** What the Go reader adds at a clean end of stream to what the browser has yielded. */
  function Pending(s: Ts.TsState): seq<Fields> {
    if !s.done && s.buf == "" && Dispatchable(s.fields) then [s.fields] else []
  }

  /** The browser before some lines with these fields pending. */
  function Clear(f: Fields): Ts.TsState {
    Ts.TsState("", f, [], false)
  }

  /** A qualifying line that is not blank, in both parsers. */
  lemma LineInBoth(f: Fields, line: string, more: seq<string>)
    requires |more| >= 1 && line != "" && '\n' !in line && Qualifies(line)
    ensures Ts.TsLines(Clear(f), [line] + more) == Ts.TsLines(Clear(Ts.TsField(f, line)), more)
    ensures Go.GoLines(f, [line] + more, false) == Go.GoLines(Ts.TsField(f, line), more, false)
  {
    Ts.TsLinesCons(Clear(f), line, more);
    Go.GoLinesCons(f, line, more, false);
    SameEffectOn(f, line);
  }

  /** What a blank line yields when it is not the done marker. */
  function Dispatched(f: Fields): seq<Fields> {
    if f.data != "" then [f] else []
  }

  lemma BlankInBoth(f: Fields, more: seq<string>)
    requires |more| >= 1
    ensures Ts.TsLines(Clear(f), [""] + more) ==
              if IsDoneMarker(f) then Clear(f).(done := true)
              else Ts.TsLines(Clear(NO_FIELDS).(events := Dispatched(f)), more)
    ensures Go.GoLines(f, [""] + more, false) ==
              if IsDoneMarker(f) then Go.GoRun([], false)
              else
                var later := Go.GoLines(NO_FIELDS, more, false);
                Go.GoRun(Dispatched(f) + later.events, later.failed)
  {
    Ts.TsLinesCons(Clear(f), "", more);
    Go.GoLinesCons(f, "", more, false);
    var later := Go.GoLines(NO_FIELDS, more, false);
    assert [] + [f] == [f] && [] + later.events == later.events;
  }

  lemma {:induction false} AgreementFrom(f: Fields, lines: seq<string>)
    requires |lines| >= 1 && CompatibleLines(lines) && forall line <- lines :: '\n' !in line
    ensures var ts := Ts.TsLines(Clear(f), lines);
            Go.GoLines(f, lines, false) == Go.GoRun(ts.events + Pending(ts), false)
    decreases |lines|
  {
    if |lines| > 1 {
      var line, more := lines[0], lines[1..];
      assert lines == [line] + more && line in lines && Qualifies(lines[0]);
      if line != "" {
        LineInBoth(f, line, more);
        AgreementFrom(Ts.TsField(f, line), more);
      } else {
        BlankInBoth(f, more);
        if !IsDoneMarker(f) {
          AgreementFrom(NO_FIELDS, more);
          EventsFirst(Clear(NO_FIELDS).(events := Dispatched(f)), more);
        }
      }
    } else {
      assert lines == [lines[0]];
      LastLine(f, lines[0]);
    }
  }

  lemma LastLine(f: Fields, line: string)
    requires !BareCr(line)
    ensures var ts := Ts.TsLines(Clear(f), [line]);
            Go.GoLines(f, [line], false) == Go.GoRun(ts.events + Pending(ts), false)
  {
    assert Go.StripEol("") == "";
    assert [] + Pending(Clear(f).(buf := line)) == Pending(Clear(f).(buf := line));
  }

  /** Events yielded before some lines come first in what is yielded after them. */
  lemma EventsFirst(s: Ts.TsState, lines: seq<string>)
    requires |lines| >= 1
    ensures var base, r := Ts.TsLines(s.(events := []), lines), Ts.TsLines(s, lines);
            r.events + Pending(r) == s.events + (base.events + Pending(base))
  {
    var clear := s.(events := []);
    var base := Ts.TsLines(clear, lines);
    Ts.TsLinesEvents(clear, s.events, lines);
    assert s.events + [] == s.events;
    assert s.events + base.events + Pending(base) == s.events + (base.events + Pending(base));
  }

  /**
   What both parsers have yielded when the stream ends cleanly: Go's run is the browser's, plus the
   pending event when the stream ends right after a newline with data collected.
   */
  ghost predicate Agrees(text: string) {
    var ts := Ts.TsRun(Ts.TS_START, text);
    Go.GoAll(NO_FIELDS, text, false) == Go.GoRun(ts.events + Pending(ts), false)
  }

  /** The parsers agree on every compatible stream. */
  lemma Agreement(text: string)
    requires Compatible(text)
    ensures Agrees(text)
  {
    SplitPieces(text, '\n');
    AgreementFrom(NO_FIELDS, SplitOn(text, '\n'));
    Ts.TsLinesIsRun(Ts.TS_START, text);
  }

  // ---------- the condition is needed ----------

  const DATA_X := "data:x"
  const X := Fields("", "", "x")

  /** Lines that show a difference in the value of `line`, or in whether it is blank. */
  function ValueWitness(line: string): seq<string> {
    [DATA_X, line, "", DATA_X, ""]
  }

  function BlankWitness(line: string): seq<string> {
    [DATA_X, line, DATA_X, ""]
  }

  lemma DataX(f: Fields)
    ensures Go.StripEol(DATA_X) == DATA_X && Go.GoField(f, DATA_X) == f.(data := "x")
    ensures Ts.TsField(f, DATA_X) == f.(data := "x")
  {
    assert DATA_X[5] == 'x' && !Go.IsEol('x');
    RightEndStops(DATA_X, Go.IsEol, |DATA_X|);
    assert DATA_X[..|DATA_X|] == DATA_X;
    FieldEffects(f, DATA_X);
    assert DATA_X[0] == 'd' && "data:" <= DATA_X && DATA_X[5..] == "x";
    TrimUndoesPadding("", "x", "", GoSpace);
    TrimUndoesPadding("", "x", "", JsSpace);
    assert "" + "x" + "" == "x";
  }

  /** What is yielded for pending fields by a blank line, a data line and a blank line. */
  function Closing(f: Fields): seq<Fields> {
    if IsDoneMarker(f) then [] else if f.data != "" then [f] + [X] else [X]
  }

  lemma GoReadsX()
    ensures Go.GoLines(NO_FIELDS, [DATA_X] + ([""] + [""]), false) == Go.GoRun([X], false)
  {
    DataX(NO_FIELDS);
    GoReads(DATA_X, X);
  }

  lemma GoReads(line: string, f: Fields)
    requires Go.StripEol(line) == line != "" && Go.GoField(NO_FIELDS, line) == f
    requires !IsDoneMarker(f) && f.data != ""
    ensures Go.GoLines(NO_FIELDS, [line] + ([""] + [""]), false) == Go.GoRun([f], false)
  {
    Go.GoLinesCons(NO_FIELDS, line, [""] + [""], false);
    GoDispatches(f);
  }

  lemma GoDispatches(f: Fields)
    requires !IsDoneMarker(f) && f.data != ""
    ensures Go.GoLines(f, [""] + [""], false) == Go.GoRun([f], false)
  {
    Go.GoLinesCons(f, "", [""], false);
    assert Go.GoLines(NO_FIELDS, [""], false) == Go.GoRun([], false);
  }

  lemma GoCloses(f: Fields)
    ensures Go.GoLines(f, [""] + ([DATA_X] + ([""] + [""])), false) == Go.GoRun(Closing(f), false)
  {
    GoReadsX();
    Go.GoLinesCons(f, "", [DATA_X] + ([""] + [""]), false);
  }

  lemma TsReadsX(s: Ts.TsState)
    requires !s.done && s.buf == "" && s.fields == NO_FIELDS
    ensures Ts.TsLines(s, [DATA_X] + ([""] + [""])) == s.(events := s.events + [X])
  {
    DataX(NO_FIELDS);
    TsReads(s, DATA_X, X);
  }

  lemma TsReads(s: Ts.TsState, line: string, f: Fields)
    requires !s.done && s.buf == "" && line != "" && Ts.TsField(s.fields, line) == f
    requires !IsDoneMarker(f) && f.data != ""
    ensures Ts.TsLines(s, [line] + ([""] + [""])) == s.(events := s.events + [f], fields := NO_FIELDS)
  {
    Ts.TsLinesCons(s, line, [""] + [""]);
    TsDispatches(s.(fields := f));
  }

  lemma TsDispatches(s: Ts.TsState)
    requires !s.done && s.buf == "" && !IsDoneMarker(s.fields) && s.fields.data != ""
    ensures Ts.TsLines(s, [""] + [""]) == s.(events := s.events + [s.fields], fields := NO_FIELDS)
  {
    Ts.TsLinesCons(s, "", [""]);
  }

  lemma TsCloses(s: Ts.TsState)
    requires !s.done && s.buf == ""
    ensures var r := Ts.TsLines(s, [""] + ([DATA_X] + ([""] + [""])));
            r.events == s.events + Closing(s.fields) && Pending(r) == []
  {
    var more := [DATA_X] + ([""] + [""]);
    var next := Ts.TsLine(s, "");
    Ts.TsLinesCons(s, "", more);
    if next.done {
      assert s.events + [] == s.events;
    } else {
      TsReadsX(next);
      assert s.events + [s.fields] + [X] == s.events + ([s.fields] + [X]);
    }
  }

  /** Fields that differ in one field, as they do after one line, are told apart by what follows. */
  lemma ClosingTellsApart(f: Fields, g: Fields)
    requires f != g
    requires || (f.id == g.id == "" && f.name == g.name == "")
             || (f.data == g.data == "x" && f.name == g.name == "")
             || (f.data == g.data == "x" && f.id == g.id == "")
    ensures Closing(f) != Closing(g)
  {
    assert ([f] + [X])[0] == f && ([g] + [X])[0] == g;
    assert |[f] + [X]| == 2 && |[g] + [X]| == 2;
  }

  /** The two runs over a text of complete lines. */
  lemma RunsOfLines(lines: seq<string>)
    requires forall line <- lines :: '\n' !in line
    ensures SplitOn(Unlines(lines), '\n') == lines + [""]
    ensures Go.GoAll(NO_FIELDS, Unlines(lines), false) == Go.GoLines(NO_FIELDS, lines + [""], false)
    ensures Ts.TsRun(Ts.TS_START, Unlines(lines)) == Ts.TsLines(Ts.TS_START, lines + [""])
  {
    SplitUnlines(lines, "");
    assert Unlines(lines) + "" == Unlines(lines);
    assert SplitOn("", '\n') == [""];
    Ts.TsLinesIsRun(Ts.TS_START, Unlines(lines));
  }

  /** A line whose value the trims make different things of. */
  lemma ValueShows(line: string)
    requires '\n' !in line && !SameValue(line)
    ensures !Agrees(Unlines(ValueWitness(line)))
  {
    var more := [""] + ([DATA_X] + ([""] + [""]));
    assert ValueWitness(line) + [""] == [DATA_X] + ([line] + more);
    RunsOfLines(ValueWitness(line));
    var g, j := Effect(X, line, GoSpace), Effect(X, line, JsSpace);
    ValueReadByGo(line, more);
    ValueReadByTs(line, more);
    GoCloses(g);
    TsCloses(Ts.TsState("", j, [], false));
    SameValueIff(X, line);
    ClosingTellsApart(g, j);
    assert [] + Closing(j) == Closing(j);
    assert Closing(j) + [] == Closing(j);
  }

  lemma ValueReadByGo(line: string, more: seq<string>)
    requires '\n' !in line && !SameValue(line) && |more| >= 1
    ensures Go.GoLines(NO_FIELDS, [DATA_X] + ([line] + more), false) == Go.GoLines(Effect(X, line, GoSpace), more, false)
  {
    DataX(NO_FIELDS);
    FieldEffects(X, line);
    PrefixSurvives(line, "id:");
    PrefixSurvives(line, "event:");
    PrefixSurvives(line, "data:");
    Go.GoLinesCons(NO_FIELDS, DATA_X, [line] + more, false);
    Go.GoLinesCons(X, line, more, false);
  }

  lemma ValueReadByTs(line: string, more: seq<string>)
    requires '\n' !in line && !SameValue(line) && |more| >= 1
    ensures Ts.TsLines(Ts.TS_START, [DATA_X] + ([line] + more))
         == Ts.TsLines(Ts.TsState("", Effect(X, line, JsSpace), [], false), more)
  {
    DataX(NO_FIELDS);
    FieldEffects(X, line);
    Ts.TsLinesCons(Ts.TS_START, DATA_X, [line] + more);
    Ts.TsLinesCons(Ts.TS_START.(fields := X), line, more);
  }

  /** A line that only Go reads as blank. */
  lemma BlankShows(line: string)
    requires '\n' !in line && BareCr(line)
    ensures var text := Unlines(BlankWitness(line));
            && Go.GoAll(NO_FIELDS, text, false) == Go.GoRun([X, X], false)
            && Ts.TsRun(Ts.TS_START, text) == Ts.TsState("", NO_FIELDS, [X], false)
            && !Agrees(text)
  {
    var last := [""] + [""];
    var more := [DATA_X] + last;
    assert BlankWitness(line) + [""] == [DATA_X] + ([line] + more);
    RunsOfLines(BlankWitness(line));
    BlankReadByGo(line, more);
    GoReadsX();
    BlankReadByTs(line, more);
    DataX(X);
    TsReads(Ts.TS_START.(fields := X), DATA_X, X);
  }

  lemma BlankReadByGo(line: string, more: seq<string>)
    requires BareCr(line) && |more| >= 1
    ensures var later := Go.GoLines(NO_FIELDS, more, false);
            Go.GoLines(NO_FIELDS, [DATA_X] + ([line] + more), false) == Go.GoRun([X] + later.events, later.failed)
  {
    DataX(NO_FIELDS);
    Go.GoLinesCons(NO_FIELDS, DATA_X, [line] + more, false);
    Go.GoLinesCons(X, line, more, false);
  }

  lemma BlankReadByTs(line: string, more: seq<string>)
    requires '\n' !in line && BareCr(line) && |more| >= 1
    ensures Ts.TsLines(Ts.TS_START, [DATA_X] + ([line] + more)) == Ts.TsLines(Ts.TS_START.(fields := X), more)
  {
    DataX(NO_FIELDS);
    NoField(X, line);
    Ts.TsLinesCons(Ts.TS_START, DATA_X, [line] + more);
    Ts.TsLinesCons(Ts.TS_START.(fields := X), line, more);
  }

  lemma NoField(f: Fields, line: string)
    requires BareCr(line)
    ensures Ts.TsField(f, line) == f
  {
    TrimRightRest(line, Go.IsEol);
    assert line[0..] == line && line[0] in line;
    assert Go.IsEol(line[0]);
  }

  /** Every line of the text, finished or not, is one of these. */
  predicate MadeOf(text: string, lines: set<string>) {
    forall line <- SplitOn(text, '\n') :: line in lines
  }

  function Witness(line: string): seq<string> {
    if BareCr(line) then BlankWitness(line) else ValueWitness(line)
  }

  lemma WitnessShows(line: string)
    requires '\n' !in line && !Qualifies(line)
    ensures !Agrees(Unlines(Witness(line)))
  {
    if BareCr(line) {
      BlankShows(line);
    } else {
      ValueShows(line);
    }
  }

  lemma WitnessIsMadeOf(line: string, lines: set<string>)
    requires line in lines && DATA_X in lines && "" in lines && forall l <- lines :: '\n' !in l
    ensures MadeOf(Unlines(Witness(line)), lines)
  {
    var w := Witness(line);
    assert forall l <- w :: l == DATA_X || l == line || l == "";
    SplitUnlines(w, "");
    assert Unlines(w) + "" == Unlines(w);
    assert SplitOn("", '\n') == [""];
  }

  lemma AllQualify(text: string, lines: set<string>)
    requires MadeOf(text, lines) && forall line <- lines :: Qualifies(line)
    ensures Compatible(text)
  {
    var pieces := SplitOn(text, '\n');
    forall i | 0 <= i < |pieces| ensures Qualifies(pieces[i]) {
      assert pieces[i] in pieces;
    }
  }

  /**
   Given a plain data line and the blank line, the parsers agree on every text made of some lines if
   and only if each of the lines qualifies.
   */
  lemma AgreementIff(lines: set<string>)
    requires DATA_X in lines && "" in lines && forall line <- lines :: '\n' !in line
    ensures (forall text | MadeOf(text, lines) :: Agrees(text)) <==> (forall line <- lines :: Qualifies(line))
  {
    if forall line <- lines :: Qualifies(line) {
      forall text | MadeOf(text, lines) ensures Agrees(text) {
        AllQualify(text, lines);
        Agreement(text);
      }
    } else {
      var line :| line in lines && !Qualifies(line);
      WitnessShows(line);
      WitnessIsMadeOf(line, lines);
    }
  }

  /** A carriage return on a line of its own: two events in Go, one in the browser. */
  lemma CarriageReturnDisagrees()
    ensures var text := "data:x\n\r\ndata:x\n\n";
            && Go.GoAll(NO_FIELDS, text, false).events == [X, X]
            && Ts.TsRun(Ts.TS_START, text).events == [X]
            && !Agrees(text)
  {
    LoneReturn();
    BlankShows("\r");
    ReturnText();
  }

  lemma LoneReturn()
    ensures BareCr("\r") && '\n' !in "\r"
  {
    RightEndStops("\r", Go.IsEol, 1);
    assert Go.StripEol("\r") == "";
  }

  lemma ReturnText()
    ensures Unlines(BlankWitness("\r")) == "data:x\n\r\ndata:x\n\n"
  {
    LinesOfFour(DATA_X, "\r", DATA_X, "");
    assert "\r" + "\n" + (DATA_X + "\n" + ("" + "\n")) == "\r\ndata:x\n\n";
    assert DATA_X + "\n" + "\r\ndata:x\n\n" == "data:x\n\r\ndata:x\n\n";
  }

  lemma LinesOfFour(a: string, b: string, c: string, d: string)
    ensures Unlines([a, b, c, d]) == a + "\n" + (b + "\n" + (c + "\n" + (d + "\n")))
  {
    UnlinesStep(a, [b, c, d]);
    UnlinesStep(b, [c, d]);
    UnlinesStep(c, [d]);
    UnlinesStep(d, []);
    assert d + "\n" + "" == d + "\n";
    assert [c] + [d] == [c, d] && [b] + [c, d] == [b, c, d] && [a] + [b, c, d] == [a, b, c, d] && [d] + [] == [d];
  }

  lemma UnlinesStep(line: string, rest: seq<string>)
    ensures Unlines([line] + rest) == line + "\n" + Unlines(rest)
  {
    assert ([line] + rest)[1..] == rest;
  }

  /**
   A value that ends in a contested character, NEXT LINE for Go or the byte order mark for the
   browser, arrives differently.
   */
  lemma ContestedDisagrees(c: char)
    requires c == '\U{85}' || c == '\U{FEFF}'
    ensures !Agrees(Unlines(["data:x", "data:y" + [c], "", "data:x", ""]))
  {
    var line := "data:y" + [c];
    assert line[0] == 'd' && "data:" <= line && line[5..] == "y" + [c];
    ContestedTail(c);
    ValueShows(line);
  }

  lemma ContestedTail(c: char)
    requires Contested(c)
    ensures !TrimsAlike("y" + [c])
  {
    var y, v := "y", "y" + [c];
    assert "" + y + [c] == v && "" + v + "" == v && |v| == 2 && |y| == 1 && v[0] == 'y' && v[1] == c;
    if GoSpace(c) {
      TrimUndoesPadding("", y, [c], GoSpace);
      TrimUndoesPadding("", v, "", JsSpace);
      assert Trim(v, GoSpace) == y && Trim(v, JsSpace) == v;
    } else {
      TrimUndoesPadding("", y, [c], JsSpace);
      TrimUndoesPadding("", v, "", GoSpace);
      assert Trim(v, JsSpace) == y && Trim(v, GoSpace) == v;
    }
  }
}
