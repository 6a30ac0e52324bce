/**
 The browser's incremental parser `streamSSE`.

 The reference is a machine that reads the decoded stream one character at a time; it knows
 nothing of network chunks.  `StreamSSE` is the code: it receives chunks, splits its buffer
 at newlines and keeps the last piece for the next chunk.
 */
module TsStream {
  import opened Wrappers
  import opened Text
  import opened SseFormat

  /** What the generator yields: the name defaults to "message", an empty id is undefined. */
  datatype TsEvent = TsEvent(event: string, data: string, id: Option<string>)

  function ToTsEvent(f: Fields): TsEvent {
    TsEvent(if f.name != "" then f.name else "message", f.data, if f.id != "" then Some(f.id) else None)
  }

  function ToTsEvents(fs: seq<Fields>): seq<TsEvent> {
    seq(|fs|, i requires 0 <= i < |fs| => ToTsEvent(fs[i]))
  }

  /** One for one: the data as it is, the type or "message", the id if there is one. */
  ghost predicate Presents(yielded: seq<TsEvent>, fs: seq<Fields>) {
    && |yielded| == |fs|
    && forall i | 0 <= i < |fs| ::
         && yielded[i].data == fs[i].data
         && yielded[i].event == (if fs[i].name == "" then "message" else fs[i].name)
         && (yielded[i].id.Some? <==> fs[i].id != "") && (yielded[i].id.Some? ==> yielded[i].id.value == fs[i].id)
  }

  lemma ToTsEventsPresents(fs: seq<Fields>)
    ensures Presents(ToTsEvents(fs), fs)
  {
  }

  lemma ToTsEventsSnoc(fs: seq<Fields>, f: Fields)
    ensures ToTsEvents(fs + [f]) == ToTsEvents(fs) + [ToTsEvent(f)]
  {
  }

  // ---------- the reference: one character at a time ----------

  /** `buf` is the unfinished line; once `done`, the generator has returned. */
  datatype TsState = TsState(buf: string, fields: Fields, events: seq<Fields>, done: bool)

  const TS_START := TsState("", NO_FIELDS, [], false)

  /** The effect of one complete line on the pending fields. */
  function TsField(f: Fields, line: string): Fields {
    if "event:" <= line then f.(name := Trim(line[6..], JsSpace))
    else if "data:" <= line then f.(data := Trim(line[5..], JsSpace))
    else if "id:" <= line then f.(id := Trim(line[3..], JsSpace))
    else f
  }

  /** One complete line: a field, an ignored line, or the blank line that dispatches. */
  function TsLine(s: TsState, line: string): TsState {
    if line != "" then s.(fields := TsField(s.fields, line))
    else if IsDoneMarker(s.fields) then s.(done := true)
    else if s.fields.data != "" then s.(events := s.events + [s.fields], fields := NO_FIELDS)
    else s.(fields := NO_FIELDS)
  }

  function TsChar(s: TsState, c: char): TsState {
    if s.done then s
    else if c == '\n' then TsLine(s.(buf := ""), s.buf)
    else s.(buf := s.buf + [c])
  }

  function TsRun(s: TsState, text: string): TsState
    decreases |text|
  {
    if text == "" then s else TsRun(TsChar(s, text[0]), text[1..])
  }

  // ---------- facts about the reference ----------

  /** Reading a text in two parts is reading it whole: where a chunk ends does not matter. */
  lemma {:induction false} TsRunAppend(s: TsState, a: string, b: string)
    ensures TsRun(s, a + b) == TsRun(TsRun(s, a), b)
    decreases |a|
  {
    if a == "" {
      assert a + b == b;
    } else {
      assert (a + b)[1..] == a[1..] + b;
      TsRunAppend(TsChar(s, a[0]), a[1..], b);
    }
  }

  /** After the done marker nothing is read. */
  lemma {:induction false} TsRunDone(s: TsState, text: string)
    requires s.done
    ensures TsRun(s, text) == s
    decreases |text|
  {
    if text != "" {
      TsRunDone(s, text[1..]);
    }
  }

  /** Characters without a newline only extend the unfinished line. */
  lemma {:induction false} TsRunPartial(s: TsState, text: string)
    requires !s.done && '\n' !in text
    ensures TsRun(s, text) == s.(buf := s.buf + text)
    decreases |text|
  {
    if text == "" {
      assert s.buf + text == s.buf;
    } else {
      TsRunPartial(s.(buf := s.buf + [text[0]]), text[1..]);
      assert s.buf + [text[0]] + text[1..] == s.buf + text;
    }
  }

  lemma TsRunOne(s: TsState, c: char)
    ensures TsRun(s, [c]) == TsChar(s, c)
  {
    assert [c][1..] == "";
  }

  /** A newline hands the unfinished line, extended by what precedes the newline, to `TsLine`. */
  lemma TsRunLine(s: TsState, line: string, rest: string)
    requires !s.done && s.buf == "" && '\n' !in line
    ensures TsRun(s, line + "\n" + rest) == TsRun(TsLine(s, line), rest)
  {
    TsRunAppend(s, line + "\n", rest);
    TsRunAppend(s, line, "\n");
    TsRunPartial(s, line);
    assert "" + line == line;
    TsRunOne(s.(buf := line), '\n');
    assert s.(buf := line).(buf := "") == s;
  }

  /** What has been yielded is never taken back. */
  lemma {:induction false} TsRunMonotone(s: TsState, text: string)
    ensures s.events <= TsRun(s, text).events
    decreases |text|
  {
    if text != "" {
      TsRunMonotone(TsChar(s, text[0]), text[1..]);
    }
  }

  // ---------- the code ----------

  /** The lines of a buffer, all but the last complete, as the code goes through them. */
  function TsLines(s: TsState, lines: seq<string>): TsState
    requires |lines| >= 1
    decreases |lines|
  {
    if s.done then s
    else if |lines| == 1 then s.(buf := lines[0])
    else TsLines(TsLine(s, lines[0]), lines[1..])
  }

  lemma TsLinesCons(s: TsState, line: string, more: seq<string>)
    requires !s.done && |more| >= 1
    ensures TsLines(s, [line] + more) == TsLines(TsLine(s, line), more)
  {
    assert ([line] + more)[1..] == more;
  }

  /** The same, from line `j` on. */
  function TsFrom(s: TsState, lines: seq<string>, j: nat): TsState
    requires j < |lines|
    decreases |lines| - j
  {
    if s.done then s
    else if j == |lines| - 1 then s.(buf := lines[j])
    else TsFrom(TsLine(s, lines[j]), lines, j + 1)
  }

  lemma {:induction false} TsFromIsLines(s: TsState, lines: seq<string>, j: nat)
    requires j < |lines|
    ensures TsFrom(s, lines, j) == TsLines(s, lines[j..])
    decreases |lines| - j
  {
    if !s.done && j < |lines| - 1 {
      TsFromIsLines(TsLine(s, lines[j]), lines, j + 1);
      assert lines[j..] == [lines[j]] + lines[j + 1..];
      TsLinesCons(s, lines[j], lines[j + 1..]);
    }
  }

  /** Events already yielded only prefix the later ones. */
  lemma {:induction false} TsLinesEvents(s: TsState, before: seq<Fields>, lines: seq<string>)
    requires |lines| >= 1
    ensures var r := TsLines(s, lines);
            TsLines(s.(events := before + s.events), lines) == r.(events := before + r.events)
    decreases |lines|
  {
    if !s.done && |lines| > 1 {
      var next := TsLine(s, lines[0]);
      assert before + (s.events + [s.fields]) == before + s.events + [s.fields];
      assert TsLine(s.(events := before + s.events), lines[0]) == next.(events := before + next.events);
      TsLinesEvents(next, before, lines[1..]);
    }
  }

  lemma {:induction false} TsLinesIsRun(s: TsState, text: string)
    requires s.buf == ""
    ensures TsLines(s, SplitOn(text, '\n')) == TsRun(s, text)
    decreases |text|
  {
    IndexOfFirst(text, '\n');
    if s.done {
      TsRunDone(s, text);
    } else if '\n' !in text {
      TsRunPartial(s, text);
      assert "" + text == text;
    } else {
      var i := IndexOf(text, '\n');
      FirstLine(s, text, i);
      TsLinesIsRun(TsLine(s, text[..i]), text[i + 1..]);
    }
  }

  lemma FirstLine(s: TsState, text: string, i: nat)
    requires s.buf == "" && !s.done && i == IndexOf(text, '\n') < |text|
    ensures var next, rest := TsLine(s, text[..i]), text[i + 1..];
            && TsLines(s, SplitOn(text, '\n')) == TsLines(next, SplitOn(rest, '\n'))
            && TsRun(s, text) == TsRun(next, rest)
  {
    IndexOfFirst(text, '\n');
    SplitCut(text, '\n');
    TsRunLine(s, text[..i], text[i + 1..]);
    TsLinesCons(s, text[..i], SplitOn(text[i + 1..], '\n'));
  }

  /**
   `streamSSE` from its read loop on: `chunks` are the decoded reads of the response body.
   `taken` counts the chunks taken before the generator returned.  The contract says that the
   chunking is invisible and that the generator stops reading at the first chunk that
   completes the done marker.
   */
  method StreamSSE(chunks: seq<string>)
    returns (yielded: seq<TsEvent>, done: bool, buf: string, eventId: string, eventName: string, eventData: string,
             taken: nat)
    ensures var whole := TsRun(TS_START, Concat(chunks));
            && Presents(yielded, whole.events)
            && yielded == ToTsEvents(whole.events)
            && done == whole.done
            && Fields(eventId, eventName, eventData) == whole.fields
            && (!done ==> buf == whole.buf)
    ensures taken <= |chunks|
    ensures forall n :: 0 <= n <= |chunks| ==> (After(chunks, n).done <==> done && taken <= n)
    ensures !done ==> taken == |chunks|
  {
    yielded, done, buf, eventId, eventName, eventData, taken := [], false, "", "", "", "", 0;
    ghost var cur := TS_START;
    while taken < |chunks|
      invariant 0 <= taken <= |chunks|
      invariant cur == TsState(buf, Fields(eventId, eventName, eventData), cur.events, false)
      invariant yielded == ToTsEvents(cur.events)
      invariant cur == After(chunks, taken)
      invariant !done && '\n' !in buf
    {
      var chunk := chunks[taken];
      ghost var target := After(chunks, taken + 1);
      NextChunk(chunks, taken);
      taken := taken + 1;
      buf := buf + chunk;

      var lines := SplitOn(buf, '\n');
      SplitPieces(buf, '\n');
      buf := lines[|lines| - 1];
      cur := cur.(buf := "");
      var j := 0;
      while j < |lines| - 1
        invariant 0 <= j <= |lines| - 1
        invariant cur == TsState("", Fields(eventId, eventName, eventData), cur.events, false)
        invariant yielded == ToTsEvents(cur.events)
        invariant TsFrom(cur, lines, j) == target
      {
        var line := lines[j];
        ghost var next := TsLine(cur, line);
        if "event:" <= line {
          eventName := Trim(line[6..], JsSpace);
        } else if "data:" <= line {
          eventData := Trim(line[5..], JsSpace);
        } else if "id:" <= line {
          eventId := Trim(line[3..], JsSpace);
        } else if line == "" {
          if eventData == "[DONE]" || eventName == "done" {
            assert next == target;
            DoneFrom(chunks, taken);
            ToTsEventsPresents(cur.events);
            return yielded, true, buf, eventId, eventName, eventData, taken;
          }
          if eventData != "" {
            ToTsEventsSnoc(cur.events, cur.fields);
            yielded := yielded + [ToTsEvent(Fields(eventId, eventName, eventData))];
          }
          eventName, eventData, eventId := "", "", "";
        }
        cur := next;
        j := j + 1;
      }
      cur := cur.(buf := buf);
    }
    ToTsEventsPresents(cur.events);
    NeverDone(chunks);
  }

  /** Feeding a chunk to a state with a buffer is feeding buffer and chunk to the same state without. */
  lemma BufferedRun(s: TsState, chunk: string)
    requires !s.done && '\n' !in s.buf
    ensures TsRun(s, chunk) == TsLines(s.(buf := ""), SplitOn(s.buf + chunk, '\n'))
  {
    var s0 := s.(buf := "");
    TsRunAppend(s0, s.buf, chunk);
    TsRunPartial(s0, s.buf);
    assert "" + s.buf == s.buf;
    TsLinesIsRun(s0, s.buf + chunk);
  }

  /** The state after the first `n` chunks, fed one after the other. */
  function After(chunks: seq<string>, n: nat): TsState
    requires n <= |chunks|
  {
    if n == 0 then TS_START else TsRun(After(chunks, n - 1), chunks[n - 1])
  }

  /** Chunks make no difference: it is the state after all their text at once. */
  lemma {:induction false} AfterIsRun(chunks: seq<string>, n: nat)
    requires n <= |chunks|
    ensures After(chunks, n) == TsRun(TS_START, Concat(chunks[..n]))
  {
    if n == 0 {
      assert chunks[..0] == [];
    } else {
      AfterIsRun(chunks, n - 1);
      assert chunks[..n] == chunks[..n - 1] + [chunks[n - 1]];
      ConcatAppend(chunks[..n - 1], chunks[n - 1]);
      TsRunAppend(TS_START, Concat(chunks[..n - 1]), chunks[n - 1]);
    }
  }

  /** One more chunk: its lines, after what the buffer holds. */
  lemma NextChunk(chunks: seq<string>, n: nat)
    requires n < |chunks| && !After(chunks, n).done && '\n' !in After(chunks, n).buf
    ensures var s := After(chunks, n);
            After(chunks, n + 1) == TsFrom(s.(buf := ""), SplitOn(s.buf + chunks[n], '\n'), 0)
  {
    var s, lines := After(chunks, n), SplitOn(After(chunks, n).buf + chunks[n], '\n');
    TsFromIsLines(s.(buf := ""), lines, 0);
    assert lines[0..] == lines;
    BufferedRun(After(chunks, n), chunks[n]);
  }

  lemma {:induction false} DoneStays(chunks: seq<string>, m: nat, n: nat)
    requires m <= n <= |chunks| && After(chunks, m).done
    ensures After(chunks, n) == After(chunks, m)
    decreases n
  {
    if m < n {
      DoneStays(chunks, m, n - 1);
      TsRunDone(After(chunks, n - 1), chunks[n - 1]);
    }
  }

  /** Chunk `taken` completes the done marker: exactly the prefixes from there on are done, and alike. */
  lemma DoneFrom(chunks: seq<string>, taken: nat)
    requires 0 < taken <= |chunks| && After(chunks, taken).done && !After(chunks, taken - 1).done
    ensures forall n :: 0 <= n <= |chunks| ==> (After(chunks, n).done <==> taken <= n)
    ensures TsRun(TS_START, Concat(chunks)) == After(chunks, taken)
  {
    AfterIsRun(chunks, |chunks|);
    assert chunks[..|chunks|] == chunks;
    forall n | 0 <= n <= |chunks| ensures After(chunks, n).done <==> taken <= n {
      if taken <= n {
        DoneStays(chunks, taken, n);
      } else if After(chunks, n).done {
        DoneStays(chunks, n, taken - 1);
      }
    }
    DoneStays(chunks, taken, |chunks|);
  }

  lemma NeverDone(chunks: seq<string>)
    requires !After(chunks, |chunks|).done
    ensures forall n :: 0 <= n <= |chunks| ==> !After(chunks, n).done
    ensures TsRun(TS_START, Concat(chunks)) == After(chunks, |chunks|)
  {
    AfterIsRun(chunks, |chunks|);
    assert chunks[..|chunks|] == chunks;
    forall n | 0 <= n <= |chunks| ensures !After(chunks, n).done {
      if After(chunks, n).done {
        DoneStays(chunks, n, |chunks|);
      }
    }
  }
}
