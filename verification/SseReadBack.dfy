/** Exactly which events the two readers give back from a completed stream. */
module SseReadBack {
  import opened Text
  import opened SseFormat
  import opened SseWriter
  import opened SseRoundTrip
  import Go = GoReader
  import Ts = TsStream

  // ---------- what a reader that trims this way can yield ----------

  predicate CleanFields(f: Fields, space: char -> bool) {
    CleanValue(f.id, space) && CleanValue(f.name, space) && CleanValue(f.data, space)
  }

  predicate Yieldable(f: Fields, space: char -> bool) {
    CleanFields(f, space) && Dispatchable(f)
  }

  predicate AllYieldable(fs: seq<Fields>, space: char -> bool) {
    forall f <- fs :: Yieldable(f, space)
  }

  predicate AreLines(lines: seq<string>) {
    forall line <- lines :: '\n' !in line
  }

  lemma TrimIsClean(v: string, space: char -> bool)
    requires '\n' !in v
    ensures CleanValue(Trim(v, space), space)
  {
    TrimIsTrimmed(v, space);
    forall c <- Trim(v, space) ensures c in v {
    }
  }

  lemma GoFieldIsClean(f: Fields, line: string)
    requires CleanFields(f, GoSpace) && '\n' !in line
    ensures CleanFields(Go.GoField(f, line), GoSpace)
  {
    if "id:" <= line {
      TrimIsClean(line[3..], GoSpace);
    } else if "event:" <= line {
      TrimIsClean(line[6..], GoSpace);
    } else if "data:" <= line {
      TrimIsClean(line[5..], GoSpace);
    }
  }

  lemma TsFieldIsClean(f: Fields, line: string)
    requires CleanFields(f, JsSpace) && '\n' !in line
    ensures CleanFields(Ts.TsField(f, line), JsSpace)
  {
    if "event:" <= line {
      TrimIsClean(line[6..], JsSpace);
    } else if "data:" <= line {
      TrimIsClean(line[5..], JsSpace);
    } else if "id:" <= line {
      TrimIsClean(line[3..], JsSpace);
    }
  }

  /** From any lines the Go reader yields only events of which it could give back each value. */
  lemma {:induction false} GoYields(f: Fields, lines: seq<string>, broken: bool)
    requires |lines| >= 1 && AreLines(lines) && CleanFields(f, GoSpace)
    ensures AllYieldable(Go.GoLines(f, lines, broken).events, GoSpace)
    decreases |lines|
  {
    var line, more := lines[0], lines[1..];
    if more != [] {
      assert line in lines && lines == [line] + more;
      Go.GoLinesCons(f, line, more, broken);
      if Go.StripEol(line) != "" {
        GoFieldIsClean(f, Go.StripEol(line));
        GoYields(Go.GoField(f, Go.StripEol(line)), more, broken);
      } else {
        GoYields(NO_FIELDS, more, broken);
      }
    }
  }

  /** So does the browser, in its way of trimming. */
  lemma {:induction false} TsYields(s: Ts.TsState, lines: seq<string>)
    requires |lines| >= 1 && AreLines(lines) && CleanFields(s.fields, JsSpace) && AllYieldable(s.events, JsSpace)
    ensures AllYieldable(Ts.TsLines(s, lines).events, JsSpace)
    decreases |lines|
  {
    if !s.done && |lines| > 1 {
      assert lines[0] in lines;
      TsFieldIsClean(s.fields, lines[0]);
      TsYields(Ts.TsLine(s, lines[0]), lines[1..]);
    }
  }

  // ---------- which events come back ----------

  lemma {:induction false} FieldsAreThere(es: seq<Event>, i: nat)
    requires i < |es|
    ensures FieldsOf(es[i]) in AllFields(es)
  {
    if i > 0 {
      FieldsAreThere(es[1..], i - 1);
    }
  }

  /** Marshalled events are clean if their fields could be yielded. */
  lemma YieldedAreClean(es: seq<Event>, space: char -> bool)
    requires AllMarshal(es) && AllYieldable(AllFields(es), space)
    ensures AllClean(es, space)
  {
    forall i | 0 <= i < |es| ensures Clean(es[i], space) {
      FieldsAreThere(es, i);
      assert es[i] in es;
    }
  }

  /**
   From a completed stream the Go reader gives back exactly the written events, and ends cleanly, if and
   only if of each event every value is on one line with nothing for Go to trim, the type is not "done",
   and the data is neither empty nor the done marker.
   */
  lemma GoReadsBackIff(es: seq<Event>, rest: string, broken: bool)
    requires AllMarshal(es)
    ensures Go.GoAll(NO_FIELDS, EncodeAll(es) + (DONE_TEXT + rest), broken) == Go.GoRun(AllFields(es), false)
            <==> AllClean(es, GoSpace)
  {
    var text := EncodeAll(es) + (DONE_TEXT + rest);
    if AllClean(es, GoSpace) {
      GoRoundTrip(es, rest, broken);
    } else {
      SplitPieces(text, '\n');
      GoYields(NO_FIELDS, SplitOn(text, '\n'), broken);
      if Go.GoAll(NO_FIELDS, text, broken).events == AllFields(es) {
        YieldedAreClean(es, GoSpace);
        assert false;
      }
    }
  }

  /** In the browser the same, with its own trim. */
  lemma TsReadsBackIff(es: seq<Event>, rest: string)
    requires AllMarshal(es)
    ensures var r := Ts.TsRun(Ts.TS_START, EncodeAll(es) + (DONE_TEXT + rest));
            r.done && r.events == AllFields(es) <==> AllClean(es, JsSpace)
  {
    var text := EncodeAll(es) + (DONE_TEXT + rest);
    if AllClean(es, JsSpace) {
      TsRoundTrip(Ts.TS_START, es, rest);
      assert [] + AllFields(es) == AllFields(es);
    } else {
      SplitPieces(text, '\n');
      TsYields(Ts.TS_START, SplitOn(text, '\n'));
      Ts.TsLinesIsRun(Ts.TS_START, text);
      if Ts.TsRun(Ts.TS_START, text).events == AllFields(es) {
        YieldedAreClean(es, JsSpace);
        assert false;
      }
    }
  }
}
