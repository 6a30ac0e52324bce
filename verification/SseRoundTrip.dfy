/** What the two readers make of the stream the server writes: of all of it, and of any prefix. */
module SseRoundTrip {
  import opened Text
  import opened SseFormat
  import opened SseWriter
  import Go = GoReader
  import Ts = TsStream

  // ---------- what the readers need of the events ----------

  /** A field value survives a reader that trims this way: one line, nothing to trim. */
  predicate CleanValue(v: string, space: char -> bool) {
    '\n' !in v && Trimmed(v, space)
  }

  /** As data it must also not be empty or look like the done marker. */
  predicate CleanData(v: string, space: char -> bool) {
    v != "" && v != "[DONE]" && CleanValue(v, space)
  }

  predicate Clean(e: Event, space: char -> bool) {
    && CleanValue(e.id, space) && CleanValue(e.name, space) && e.name != "done"
    && (e.json.Some? ==> CleanData(e.json.value, space))
  }

  predicate AllClean(es: seq<Event>, space: char -> bool) {
    forall e <- es :: Clean(e, space)
  }

  /** The event as the Go reader's fields. */
  function FieldsOf(e: Event): Fields {
    Fields(e.id, e.name, if e.json.Some? then e.json.value else "")
  }

  function AllFields(es: seq<Event>): (fs: seq<Fields>)
    ensures |fs| == |es|
  {
    if es == [] then [] else [FieldsOf(es[0])] + AllFields(es[1..])
  }

  // ---------- the text as lines ----------

  /** A field line before printing, such as `id: 7`. */
  datatype FieldLine = FieldLine(field: string, value: string) {
    function Text(): string {
      field + " " + value
    }

    predicate Good(space: char -> bool) {
      field in ["id:", "event:", "data:"] && value != "" && CleanValue(value, space)
    }

    function Set(f: Fields): Fields {
      if field == "id:" then f.(id := value)
      else if field == "event:" then f.(name := value)
      else f.(data := value)
    }
  }

  predicate AllGood(fls: seq<FieldLine>, space: char -> bool) {
    forall fl <- fls :: fl.Good(space)
  }

  function Texts(fls: seq<FieldLine>): seq<string> {
    seq(|fls|, i requires 0 <= i < |fls| => fls[i].Text())
  }

  /** The field lines of an event: type and id when set, then the data. */
  function HeadFields(e: Event): seq<FieldLine> {
    (if e.name != "" then [FieldLine("event:", e.name)] else [])
    + (if e.id != "" then [FieldLine("id:", e.id)] else [])
  }

  function EventFields(e: Event): seq<FieldLine>
    requires e.json.Some?
  {
    HeadFields(e) + [FieldLine("data:", e.json.value)]
  }

  const DONE_FIELDS := [FieldLine("event:", "done"), FieldLine("data:", "{}")]

  /** A printed event is its field lines and a blank line. */
  lemma HeadIsLines(e: Event)
    ensures Head(e) == Unlines(Texts(HeadFields(e)))
  {
    var name, id := FieldLine("event:", e.name), FieldLine("id:", e.id);
    assert e.name != "" ==> Texts([name]) == [name.Text()];
    assert e.id != "" ==> Texts([id]) == [id.Text()];
    UnlinesOne(name.Text());
    UnlinesOne(id.Text());
    UnlinesAppend([name.Text()], [id.Text()]);
    assert e.name != "" && e.id != "" ==> Texts(HeadFields(e)) == [name.Text()] + [id.Text()];
    assert NameLine(e.name) == if e.name != "" then Unlines([name.Text()]) else "";
    assert IdLine(e.id) == if e.id != "" then Unlines([id.Text()]) else "";
  }

  lemma UnlinesOne(line: string)
    ensures Unlines([line]) == line + "\n"
  {
    assert [line][1..] == [];
    assert line + "\n" + "" == line + "\n";
  }

  lemma EncodeIsLines(e: Event)
    requires e.json.Some?
    ensures Encode(e) == Unlines(Texts(EventFields(e)) + [""])
  {
    var data := FieldLine("data:", e.json.value).Text();
    var head := Texts(HeadFields(e));
    HeadIsLines(e);
    BodyIsLines(e.json.value);
    assert Texts(EventFields(e)) + [""] == head + [data, ""];
    UnlinesAppend(head, [data, ""]);
  }

  lemma BodyIsLines(json: string)
    ensures Body(json) == Unlines([FieldLine("data:", json).Text(), ""])
  {
    var data := FieldLine("data:", json).Text();
    UnlinesAppend([data], [""]);
    UnlinesOne(data);
    UnlinesOne("");
    assert [data, ""] == [data] + [""];
    assert Body(json) == (data + "\n") + ("" + "\n");
  }

  lemma DoneIsLines()
    ensures DONE_TEXT == Unlines(Texts(DONE_FIELDS) + [""])
  {
    var name, data := "event:" + " " + "done", "data:" + " " + "{}";
    assert Texts(DONE_FIELDS) + [""] == [name] + ([data] + [""]);
    UnlinesAppend([name], [data] + [""]);
    UnlinesAppend([data], [""]);
    UnlinesOne(name);
    UnlinesOne(data);
    UnlinesOne("");
    assert DONE_TEXT == (name + "\n") + ((data + "\n") + ("" + "\n"));
  }

  // ---------- reading field lines back ----------

  /** A printed field line is one line, which starts with its field and ends with its value. */
  lemma FieldLineIsLine(fl: FieldLine, space: char -> bool)
    requires fl.Good(space)
    ensures '\n' !in fl.Text() && fl.Text() != "" && !Go.IsEol(fl.Text()[0])
    ensures fl.field <= fl.Text() && fl.Text()[|fl.field|..] == " " + fl.value
    ensures fl.Text()[|fl.Text()| - 1] == fl.value[|fl.value| - 1]
  {
    assert fl.Text()[0] == fl.field[0];
  }

  lemma ValueTrims(v: string, space: char -> bool)
    requires CleanValue(v, space) && space(' ')
    ensures Trim(" " + v, space) == v
  {
    assert " " + v + "" == " " + v;
    assert forall c <- " " :: c == ' ';
    TrimUndoesPadding(" ", v, "", space);
  }

  /** A printed field line whose value the Go reader leaves alone sets that field in it. */
  lemma GoFieldLineRead(f: Fields, fl: FieldLine)
    requires fl.Good(GoSpace)
    ensures '\n' !in fl.Text() && fl.Text() != "" && !Go.IsEol(fl.Text()[0])
    ensures Go.StripEol(fl.Text()) == fl.Text()
    ensures Go.GoField(f, fl.Text()) == fl.Set(f)
  {
    FieldLineIsLine(fl, GoSpace);
    ValueTrims(fl.value, GoSpace);
    var line, field := fl.Text(), fl.field;
    assert line[0] == field[0] && line[1] == field[1];
  }

  /** The same in the browser. */
  lemma TsFieldLineRead(f: Fields, fl: FieldLine)
    requires fl.Good(JsSpace)
    ensures '\n' !in fl.Text() && fl.Text() != ""
    ensures Ts.TsField(f, fl.Text()) == fl.Set(f)
  {
    FieldLineIsLine(fl, JsSpace);
    ValueTrims(fl.value, JsSpace);
    var line, field := fl.Text(), fl.field;
    assert line[0] == field[0] && line[1] == field[1];
  }

  lemma TextsAreLines(fls: seq<FieldLine>, space: char -> bool)
    requires AllGood(fls, space)
    ensures forall line <- Texts(fls) + [""] :: '\n' !in line
    ensures forall line <- Texts(fls) :: '\n' !in line
  {
    forall i | 0 <= i < |fls| ensures '\n' !in Texts(fls)[i] {
      assert fls[i] in fls;
      FieldLineIsLine(fls[i], space);
    }
  }

  /** The pending fields after some field lines; later lines overwrite. */
  function SetAll(f: Fields, fls: seq<FieldLine>): Fields
    decreases |fls|
  {
    if fls == [] then f else SetAll(fls[0].Set(f), fls[1..])
  }

  lemma {:induction false} GoFieldLines(f: Fields, fls: seq<FieldLine>, more: seq<string>, broken: bool)
    requires AllGood(fls, GoSpace) && |more| >= 1
    ensures Go.GoLines(f, Texts(fls) + more, broken) == Go.GoLines(SetAll(f, fls), more, broken)
    decreases |fls|
  {
    if fls == [] {
      assert Texts(fls) + more == more;
    } else {
      var later := Texts(fls[1..]) + more;
      assert fls[0] in fls;
      assert Texts(fls) + more == [fls[0].Text()] + later;
      GoFieldLineRead(f, fls[0]);
      Go.GoLinesCons(f, fls[0].Text(), later, broken);
      GoFieldLines(fls[0].Set(f), fls[1..], more, broken);
    }
  }

  lemma {:induction false} TsFieldLines(s: Ts.TsState, fls: seq<FieldLine>, more: seq<string>)
    requires AllGood(fls, JsSpace) && |more| >= 1 && !s.done
    ensures Ts.TsLines(s, Texts(fls) + more) == Ts.TsLines(s.(fields := SetAll(s.fields, fls)), more)
    decreases |fls|
  {
    if fls == [] {
      assert Texts(fls) + more == more;
      assert s.(fields := s.fields) == s;
    } else {
      var later := Texts(fls[1..]) + more;
      assert fls[0] in fls;
      assert Texts(fls) + more == [fls[0].Text()] + later;
      TsFieldLineRead(s.fields, fls[0]);
      Ts.TsLinesCons(s, fls[0].Text(), later);
      TsFieldLines(s.(fields := fls[0].Set(s.fields)), fls[1..], more);
    }
  }

  /** What the field lines of an event amount to: everything only once the data line is in. */
  lemma EventFieldsSet(e: Event, k: nat, space: char -> bool)
    requires Clean(e, space) && e.json.Some? && k <= |EventFields(e)|
    ensures AllGood(EventFields(e), space) && AllGood(HeadFields(e), space)
    ensures SetAll(NO_FIELDS, HeadFields(e)) == Fields(e.id, e.name, "")
    ensures SetAll(NO_FIELDS, EventFields(e)) == FieldsOf(e)
    ensures k < |EventFields(e)| ==> SetAll(NO_FIELDS, EventFields(e)[..k]).data == ""
  {
    var fls, head := EventFields(e), HeadFields(e);
    HeadFieldsSet(e, if k <= |head| then k else 0, space);
    SetAllAppend(NO_FIELDS, head, [fls[|head|]]);
    if k < |fls| {
      assert fls[..k] == head[..k];
    }
  }

  lemma HeadFieldsSet(e: Event, k: nat, space: char -> bool)
    requires Clean(e, space) && k <= |HeadFields(e)|
    ensures AllGood(HeadFields(e), space)
    ensures SetAll(NO_FIELDS, HeadFields(e)) == Fields(e.id, e.name, "")
    ensures SetAll(NO_FIELDS, HeadFields(e)[..k]).data == ""
  {
    var name, id := FieldLine("event:", e.name), FieldLine("id:", e.id);
    var a, b := if e.name != "" then [name] else [], if e.id != "" then [id] else [];
    SetAllAppend(NO_FIELDS, a, b);
    SetAllOne(NO_FIELDS, name);
    SetAllOne(SetAll(NO_FIELDS, a), id);
    DataUnset(NO_FIELDS, HeadFields(e)[..k]);
  }

  lemma SetAllOne(f: Fields, fl: FieldLine)
    ensures SetAll(f, [fl]) == fl.Set(f)
  {
    assert [fl][1..] == [];
  }

  lemma {:induction false} DataUnset(f: Fields, fls: seq<FieldLine>)
    requires forall fl <- fls :: fl.field in ["id:", "event:"]
    ensures SetAll(f, fls).data == f.data
    decreases |fls|
  {
    if fls != [] {
      assert fls[0] in fls;
      DataUnset(fls[0].Set(f), fls[1..]);
    }
  }

  lemma {:induction false} SetAllAppend(f: Fields, a: seq<FieldLine>, b: seq<FieldLine>)
    ensures SetAll(f, a + b) == SetAll(SetAll(f, a), b)
    decreases |a|
  {
    if a == [] {
      assert a + b == b;
    } else {
      assert (a + b)[1..] == a[1..] + b;
      SetAllAppend(a[0].Set(f), a[1..], b);
    }
  }

  // ---------- reading a whole stream back ----------

  lemma GoEncoded(e: Event, rest: string, broken: bool)
    requires Clean(e, GoSpace) && e.json.Some?
    ensures var later := Go.GoAll(NO_FIELDS, rest, broken);
            Go.GoAll(NO_FIELDS, Encode(e) + rest, broken) == Go.GoRun([FieldsOf(e)] + later.events, later.failed)
  {
    var fls, more := EventFields(e), SplitOn(rest, '\n');
    EncodedLines(e, rest, GoSpace);
    EventFieldsSet(e, 0, GoSpace);
    GoFieldLines(NO_FIELDS, fls, [""] + more, broken);
    Go.GoLinesCons(FieldsOf(e), "", more, broken);
  }

  lemma EncodedLines(e: Event, rest: string, space: char -> bool)
    requires Clean(e, space) && e.json.Some?
    ensures SplitOn(Encode(e) + rest, '\n') == Texts(EventFields(e)) + ([""] + SplitOn(rest, '\n'))
  {
    var texts := Texts(EventFields(e));
    EncodeIsLines(e);
    EventFieldsSet(e, 0, space);
    TextsAreLines(EventFields(e), space);
    SplitUnlines(texts + [""], rest);
    assert texts + [""] + SplitOn(rest, '\n') == texts + ([""] + SplitOn(rest, '\n'));
  }

  lemma TsEncoded(s: Ts.TsState, e: Event, rest: string)
    requires Clean(e, JsSpace) && e.json.Some? && !s.done && s.buf == "" && s.fields == NO_FIELDS
    ensures Ts.TsRun(s, Encode(e) + rest) == Ts.TsRun(s.(events := s.events + [FieldsOf(e)]), rest)
  {
    var fls, more := EventFields(e), SplitOn(rest, '\n');
    Ts.TsLinesIsRun(s, Encode(e) + rest);
    Ts.TsLinesIsRun(s.(events := s.events + [FieldsOf(e)]), rest);
    EncodedLines(e, rest, JsSpace);
    EventFieldsSet(e, 0, JsSpace);
    TsFieldLines(s, fls, [""] + more);
    Ts.TsLinesCons(s.(fields := FieldsOf(e)), "", more);
  }

  lemma DoneLines(rest: string, space: char -> bool)
    requires !space('d') && !space('e') && !space('{') && !space('}')
    ensures AllGood(DONE_FIELDS, space) && SetAll(NO_FIELDS, DONE_FIELDS) == Fields("", "done", "{}")
    ensures SplitOn(DONE_TEXT + rest, '\n') == Texts(DONE_FIELDS) + ([""] + SplitOn(rest, '\n'))
  {
    var texts := Texts(DONE_FIELDS);
    DoneIsLines();
    assert DONE_FIELDS[1..][1..] == [];
    TextsAreLines(DONE_FIELDS, space);
    SplitUnlines(texts + [""], rest);
    assert texts + [""] + SplitOn(rest, '\n') == texts + ([""] + SplitOn(rest, '\n'));
  }

  lemma GoDone(rest: string, broken: bool)
    ensures Go.GoAll(NO_FIELDS, DONE_TEXT + rest, broken) == Go.GoRun([], false)
  {
    var more := SplitOn(rest, '\n');
    DoneLines(rest, GoSpace);
    GoFieldLines(NO_FIELDS, DONE_FIELDS, [""] + more, broken);
    Go.GoLinesCons(Fields("", "done", "{}"), "", more, broken);
  }

  lemma TsDone(s: Ts.TsState, rest: string)
    requires !s.done && s.buf == "" && s.fields == NO_FIELDS
    ensures var r := Ts.TsRun(s, DONE_TEXT + rest); r.done && r.events == s.events
  {
    var more := SplitOn(rest, '\n');
    Ts.TsLinesIsRun(s, DONE_TEXT + rest);
    DoneLines(rest, JsSpace);
    TsFieldLines(s, DONE_FIELDS, [""] + more);
    Ts.TsLinesCons(s.(fields := Fields("", "done", "{}")), "", more);
  }

  /** Round trip in Go: a completed stream gives back its events and ends cleanly, whatever follows. */
  lemma {:induction false} GoRoundTrip(es: seq<Event>, rest: string, broken: bool)
    requires AllMarshal(es) && AllClean(es, GoSpace)
    ensures Go.GoAll(NO_FIELDS, EncodeAll(es) + (DONE_TEXT + rest), broken) == Go.GoRun(AllFields(es), false)
  {
    if es == [] {
      assert EncodeAll(es) + (DONE_TEXT + rest) == DONE_TEXT + rest;
      GoDone(rest, broken);
    } else {
      assert es[0] in es;
      GoRoundTrip(es[1..], rest, broken);
      GoEncodedCons(es, DONE_TEXT + rest, broken);
    }
  }

  lemma GoEncodedCons(es: seq<Event>, rest: string, broken: bool)
    requires AllMarshal(es) && es != [] && Clean(es[0], GoSpace)
    ensures var later := Go.GoAll(NO_FIELDS, EncodeAll(es[1..]) + rest, broken);
            Go.GoAll(NO_FIELDS, EncodeAll(es) + rest, broken)
            == Go.GoRun([FieldsOf(es[0])] + later.events, later.failed)
  {
    EncodeAllCons(es, rest);
    GoEncoded(es[0], EncodeAll(es[1..]) + rest, broken);
  }

  lemma EncodeAllCons(es: seq<Event>, rest: string)
    requires AllMarshal(es) && es != []
    ensures EncodeAll(es) + rest == Encode(es[0]) + (EncodeAll(es[1..]) + rest)
  {
  }

  lemma TsEncodedCons(s: Ts.TsState, es: seq<Event>, rest: string)
    requires AllMarshal(es) && es != [] && Clean(es[0], JsSpace) && !s.done && s.buf == "" && s.fields == NO_FIELDS
    ensures Ts.TsRun(s, EncodeAll(es) + rest)
         == Ts.TsRun(s.(events := s.events + [FieldsOf(es[0])]), EncodeAll(es[1..]) + rest)
  {
    EncodeAllCons(es, rest);
    TsEncoded(s, es[0], EncodeAll(es[1..]) + rest);
  }

  lemma EventsCons(s: Ts.TsState, es: seq<Event>)
    requires es != []
    ensures var s' := s.(events := s.events + [FieldsOf(es[0])]);
            s'.(events := s'.events + AllFields(es[1..])) == s.(events := s.events + AllFields(es))
  {
    assert (s.events + [FieldsOf(es[0])]) + AllFields(es[1..]) == s.events + AllFields(es);
  }

  lemma {:induction false} TsEncodedAll(s: Ts.TsState, es: seq<Event>, rest: string)
    requires AllMarshal(es) && AllClean(es, JsSpace) && !s.done && s.buf == "" && s.fields == NO_FIELDS
    ensures Ts.TsRun(s, EncodeAll(es) + rest) == Ts.TsRun(s.(events := s.events + AllFields(es)), rest)
    decreases |es|
  {
    if es == [] {
      assert EncodeAll(es) + rest == rest;
      assert s.events + [] == s.events;
    } else {
      assert es[0] in es;
      TsEncodedAll(s.(events := s.events + [FieldsOf(es[0])]), es[1..], rest);
      TsEncodedCons(s, es, rest);
      EventsCons(s, es);
    }
  }

  /** Round trip in the browser. */
  lemma TsRoundTrip(s: Ts.TsState, es: seq<Event>, rest: string)
    requires AllMarshal(es) && AllClean(es, JsSpace) && !s.done && s.buf == "" && s.fields == NO_FIELDS
    ensures var r := Ts.TsRun(s, EncodeAll(es) + (DONE_TEXT + rest));
            r.done && r.events == s.events + AllFields(es)
  {
    TsEncodedAll(s, es, DONE_TEXT + rest);
    TsDone(s.(events := s.events + AllFields(es)), rest);
  }

  // ---------- streams cut anywhere ----------

  /**
   A cut inside field lines: a dispatch when it is right after a newline, the body ends
   cleanly there and data was collected; otherwise nothing.
   */
  lemma GoCutFields(fls: seq<FieldLine>, k: nat, q: string, broken: bool)
    requires AllGood(fls, GoSpace) && k <= |fls| && q <= (Texts(fls) + [""])[k]
    ensures var f := SetAll(NO_FIELDS, fls[..k]);
            Go.GoLines(NO_FIELDS, (Texts(fls) + [""])[..k] + [q], broken)
            == Go.GoRun(if q == "" && !broken && Dispatchable(f) then [f] else [], broken)
  {
    assert (Texts(fls) + [""])[..k] == Texts(fls[..k]);
    GoFieldLines(NO_FIELDS, fls[..k], [q], broken);
    if q != "" {
      assert fls[k] in fls;
      GoFieldLineRead(NO_FIELDS, fls[k]);
      RightEndStops(q, Go.IsEol, |q|);
      assert q[0] == fls[k].Text()[0];
    }
  }

  /** A cut inside one event: complete but for the last newline is enough at a clean end. */
  lemma GoCutEvent(e: Event, p: string, broken: bool)
    requires Clean(e, GoSpace) && e.json.Some? && p <= Encode(e) && |p| < |Encode(e)|
    ensures Go.GoAll(NO_FIELDS, p, broken)
         == Go.GoRun(if |p| == |Encode(e)| - 1 && !broken then [FieldsOf(e)] else [], broken)
  {
    var fls := EventFields(e);
    var lines := Texts(fls) + [""];
    EncodeIsLines(e);
    EventFieldsSet(e, 0, GoSpace);
    TextsAreLines(fls, GoSpace);
    var k, q := CutLines(lines, p);
    EventFieldsSet(e, k, GoSpace);
    GoCutFields(fls, k, q, broken);
    CutSize(lines, k, q);
    assert k == |fls| ==> fls[..k] == fls;
  }

  /** A cut inside the last, empty line is one character short; any earlier cut is shorter. */
  lemma CutSize(lines: seq<string>, k: nat, q: string)
    requires k < |lines| && q <= lines[k] && lines[|lines| - 1] == ""
    ensures k == |lines| - 1 <==> |Unlines(lines[..k])| + |q| == |Unlines(lines)| - 1
  {
    assert lines == lines[..k] + ([lines[k]] + lines[k + 1..]);
    UnlinesAppend(lines[..k], [lines[k]] + lines[k + 1..]);
    UnlinesAppend([lines[k]], lines[k + 1..]);
    UnlinesOne(lines[k]);
  }

  /** A cut inside the type and id lines, or right behind them, yields nothing. */
  lemma GoCutHead(e: Event, p: string, broken: bool)
    requires Clean(e, GoSpace) && p <= Head(e)
    ensures Go.GoAll(NO_FIELDS, p, broken) == Go.GoRun([], broken)
  {
    var fls := HeadFields(e);
    HeadIsLines(e);
    HeadFieldsSet(e, 0, GoSpace);
    TextsAreLines(fls, GoSpace);
    if |p| < |Head(e)| {
      var k, q := CutLines(Texts(fls), p);
      HeadFieldsSet(e, k, GoSpace);
      assert (Texts(fls) + [""])[..k] == Texts(fls)[..k];
      GoCutFields(fls, k, q, broken);
    } else {
      SplitUnlines(Texts(fls), "");
      assert p == Unlines(Texts(fls)) + "";
      GoCutFields(fls, |fls|, "", broken);
      assert (Texts(fls) + [""])[..|fls|] == Texts(fls) && fls[..|fls|] == fls;
      assert SplitOn("", '\n') == [""];
    }
  }

  /** No part of the closing marker yields anything. */
  lemma GoCutDone(p: string, broken: bool)
    requires p <= DONE_TEXT
    ensures Go.GoAll(NO_FIELDS, p, broken) == Go.GoRun([], broken && p != DONE_TEXT)
  {
    if |p| < |DONE_TEXT| {
      var lines := Texts(DONE_FIELDS) + [""];
      DoneLines("", GoSpace);
      DoneIsLines();
      TextsAreLines(DONE_FIELDS, GoSpace);
      var k, q := CutLines(lines, p);
      GoCutFields(DONE_FIELDS, k, q, broken);
      assert k == 1 ==> DONE_FIELDS[..k] == [DONE_FIELDS[0]];
      assert k == 2 ==> DONE_FIELDS[..k] == DONE_FIELDS;
    } else {
      assert p == DONE_TEXT + "";
      GoDone("", broken);
    }
  }

  lemma GoCutEnding(ending: Ending, p: string, broken: bool)
    requires (ending.Broken? ==> Clean(ending.e, GoSpace)) && p <= EndingText(ending)
    ensures Go.GoAll(NO_FIELDS, p, broken) == Go.GoRun([], broken && !(ending == Closed && p == EndingText(ending)))
  {
    match ending
    case Open => assert SplitOn("", '\n') == [""];
    case Closed => GoCutDone(p, broken);
    case Broken(e) => GoCutHead(e, p, broken);
  }

  lemma {:induction false} AllFieldsPrefix(es: seq<Event>, n: nat)
    requires n <= |es|
    ensures AllFields(es[..n]) == AllFields(es)[..n]
  {
    if n > 0 {
      AllFieldsPrefix(es[1..], n - 1);
      FieldsCons(es, n);
      ConsPrefix(FieldsOf(es[0]), AllFields(es[1..]), n);
    }
  }

  lemma ConsPrefix(first: Fields, later: seq<Fields>, n: nat)
    requires 0 < n <= |later| + 1
    ensures ([first] + later)[..n] == [first] + later[..n - 1]
  {
  }

  /** How many of the events are complete within the first `size` characters. */
  function Complete(es: seq<Event>, size: nat): (n: nat)
    requires AllMarshal(es)
    ensures n <= |es|
  {
    if es == [] || size < |Encode(es[0])| then 0 else 1 + Complete(es[1..], size - |Encode(es[0])|)
  }

  /** The fields of those events. */
  function CompleteFields(es: seq<Event>, size: nat): seq<Fields>
    requires AllMarshal(es)
  {
    if es == [] || size < |Encode(es[0])| then []
    else [FieldsOf(es[0])] + CompleteFields(es[1..], size - |Encode(es[0])|)
  }

  lemma {:induction false} CompleteFieldsAre(es: seq<Event>, size: nat)
    requires AllMarshal(es)
    ensures CompleteFields(es, size) == AllFields(es[..Complete(es, size)])
  {
    if es != [] && size >= |Encode(es[0])| {
      CompleteFieldsAre(es[1..], size - |Encode(es[0])|);
      FieldsCons(es, Complete(es, size));
    }
  }

  lemma FieldsCons(es: seq<Event>, n: nat)
    requires 0 < n <= |es|
    ensures AllFields(es[..n]) == [FieldsOf(es[0])] + AllFields(es[1..][..n - 1])
  {
    assert es[..n][1..] == es[1..][..n - 1];
  }

  /** The part is the whole stream, to its closing marker. */
  predicate IsWhole(es: seq<Event>, ending: Ending, p: string)
    requires AllMarshal(es)
  {
    ending == Closed && p == EncodeAll(es) + EndingText(ending)
  }

  lemma WholeCons(es: seq<Event>, ending: Ending, p: string)
    requires AllMarshal(es) && es != []
    ensures IsWhole(es, ending, Encode(es[0]) + p) <==> IsWhole(es[1..], ending, p)
  {
    var whole, rest := EncodeAll(es) + EndingText(ending), EncodeAll(es[1..]) + EndingText(ending);
    EncodeAllCons(es, EndingText(ending));
    assert (Encode(es[0]) + p)[|Encode(es[0])|..] == p && (Encode(es[0]) + rest)[|Encode(es[0])|..] == rest;
  }

  lemma WholeIsLong(es: seq<Event>, ending: Ending, p: string)
    requires AllMarshal(es) && es != [] && |p| < |Encode(es[0])|
    ensures !IsWhole(es, ending, p)
  {
    EncodeAllCons(es, EndingText(ending));
  }

  /**
   Whatever part of the stream reaches the Go reader, it yields exactly the events complete in
   that part, where at a clean end the last newline of an event may be missing; and it reports a
   broken connection exactly when the stream had not been read to its closing marker.
   */
  lemma GoCutStream(es: seq<Event>, ending: Ending, p: string, broken: bool)
    requires AllMarshal(es) && AllClean(es, GoSpace) && (ending.Broken? ==> Clean(ending.e, GoSpace))
    requires p <= EncodeAll(es) + EndingText(ending)
    ensures var n := Complete(es, |p| + if broken then 0 else 1);
            Go.GoAll(NO_FIELDS, p, broken)
            == Go.GoRun(AllFields(es[..n]), broken && !IsWhole(es, ending, p))
  {
    var size := |p| + if broken then 0 else 1;
    CompleteFieldsAre(es, size);
    GoCut(es, ending, p, broken);
  }

  lemma {:induction false} GoCut(es: seq<Event>, ending: Ending, p: string, broken: bool)
    requires AllMarshal(es) && AllClean(es, GoSpace) && (ending.Broken? ==> Clean(ending.e, GoSpace))
    requires p <= EncodeAll(es) + EndingText(ending)
    ensures Go.GoAll(NO_FIELDS, p, broken)
         == Go.GoRun(CompleteFields(es, |p| + if broken then 0 else 1),
                     broken && !IsWhole(es, ending, p))
    decreases |es|
  {
    if es == [] {
      assert "" + EndingText(ending) == EndingText(ending);
      GoCutEnding(ending, p, broken);
    } else {
      assert es[0] in es;
      var p' := CutCons(es, EndingText(ending), p);
      if |Encode(es[0])| <= |p| {
        GoCut(es[1..], ending, p', broken);
        GoCutLater(es, p', broken);
        WholeCons(es, ending, p');
      } else {
        GoCutFirst(es, p, broken);
        WholeIsLong(es, ending, p);
      }
    }
  }

  /** The cut is behind the first event. */
  lemma GoCutLater(es: seq<Event>, p: string, broken: bool)
    requires AllMarshal(es) && es != [] && Clean(es[0], GoSpace)
    requires Go.GoAll(NO_FIELDS, p, broken).events == CompleteFields(es[1..], |p| + if broken then 0 else 1)
    ensures var p' := Encode(es[0]) + p;
            Go.GoAll(NO_FIELDS, p', broken) == Go.GoRun(CompleteFields(es, |p'| + if broken then 0 else 1),
                                                        Go.GoAll(NO_FIELDS, p, broken).failed)
  {
    GoEncoded(es[0], p, broken);
  }

  /** The cut is inside the first event. */
  lemma {:induction false} GoCutFirst(es: seq<Event>, p: string, broken: bool)
    requires AllMarshal(es) && es != [] && Clean(es[0], GoSpace)
    requires p <= Encode(es[0]) && |p| < |Encode(es[0])|
    ensures Go.GoAll(NO_FIELDS, p, broken) == Go.GoRun(CompleteFields(es, |p| + if broken then 0 else 1), broken)
  {
    GoCutEvent(es[0], p, broken);
    if |p| == |Encode(es[0])| - 1 && !broken {
      assert CompleteFields(es[1..], 0) == [];
    }
  }

  /** A cut is inside the first event or behind it. */
  lemma CutCons(es: seq<Event>, ending: string, p: string) returns (p': string)
    requires AllMarshal(es) && es != [] && p <= EncodeAll(es) + ending
    ensures if |Encode(es[0])| <= |p| then p == Encode(es[0]) + p' && p' <= EncodeAll(es[1..]) + ending
            else p <= Encode(es[0])
  {
    EncodeAllCons(es, ending);
    p' := CutPrefix(Encode(es[0]), EncodeAll(es[1..]) + ending, p);
  }

  lemma CutPrefix(a: string, b: string, p: string) returns (p': string)
    requires p <= a + b
    ensures if |a| <= |p| then p == a + p' && p' <= b else p <= a
  {
    assert p == (a + b)[..|p|];
    p' := if |a| <= |p| then p[|a|..] else "";
    assert |p| < |a| ==> p == a[..|p|];
  }

  /** The browser, too, yields only written events, however the stream is cut. */
  lemma TsCutStream(es: seq<Event>, ending: Ending, p: string)
    requires AllMarshal(es) && AllClean(es, JsSpace) && (ending.Broken? ==> Clean(ending.e, JsSpace))
    requires p <= EncodeAll(es) + EndingText(ending)
    ensures Ts.TsRun(Ts.TS_START, p).events <= AllFields(es)
  {
    var whole := EncodeAll(es) + EndingText(ending);
    var rest := whole[|p|..];
    assert whole == p + rest;
    Ts.TsRunAppend(Ts.TS_START, p, rest);
    Ts.TsRunMonotone(Ts.TsRun(Ts.TS_START, p), rest);
    TsWhole(es, ending);
  }

  /** From the whole stream the browser gets the written events. */
  lemma TsWhole(es: seq<Event>, ending: Ending)
    requires AllMarshal(es) && AllClean(es, JsSpace) && (ending.Broken? ==> Clean(ending.e, JsSpace))
    ensures Ts.TsRun(Ts.TS_START, EncodeAll(es) + EndingText(ending)).events == AllFields(es)
  {
    TsEncodedAll(Ts.TS_START, es, EndingText(ending));
    assert [] + AllFields(es) == AllFields(es);
    TsEnding(Ts.TS_START.(events := AllFields(es)), ending);
  }

  lemma TsEnding(s: Ts.TsState, ending: Ending)
    requires !s.done && s.buf == "" && s.fields == NO_FIELDS && (ending.Broken? ==> Clean(ending.e, JsSpace))
    ensures Ts.TsRun(s, EndingText(ending)).events == s.events
  {
    match ending
    case Open =>
    case Closed =>
      assert DONE_TEXT + "" == DONE_TEXT;
      TsDone(s, "");
    case Broken(e) => TsHead(s, e);
  }

  lemma TsHead(s: Ts.TsState, e: Event)
    requires Clean(e, JsSpace) && !s.done && s.buf == "" && s.fields == NO_FIELDS
    ensures Ts.TsRun(s, Head(e)).events == s.events
  {
    var fls := HeadFields(e);
    HeadIsLines(e);
    HeadFieldsSet(e, 0, JsSpace);
    TextsAreLines(fls, JsSpace);
    SplitUnlines(Texts(fls), "");
    assert Unlines(Texts(fls)) + "" == Head(e);
    assert SplitOn("", '\n') == [""];
    Ts.TsLinesIsRun(s, Head(e));
    TsFieldLines(s, fls, [""]);
  }
}
