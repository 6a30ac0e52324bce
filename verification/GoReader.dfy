/**
 The Go client's pull reader `SSEReader`.

 The response body is the text still unread, which ends either in a clean end of stream or,
 when `broken`, in another read error.  `bufio` blocking is not modelled.
 */
module GoReader {
  import opened Wrappers
  import opened Text
  import opened SseFormat

  // ---------- the specification, line by line ----------

  predicate IsEol(c: char) {
    c == '\r' || c == '\n'
  }

  /** `strings.TrimRight(line, "\r\n")`. */
  function StripEol(line: string): string {
    TrimRight(line, IsEol)
  }

  /** The effect of one stripped line that is not blank. */
  function GoField(f: Fields, line: string): Fields {
    if "id:" <= line then f.(id := Trim(line[3..], GoSpace))
    else if "event:" <= line then f.(name := Trim(line[6..], GoSpace))
    else if "data:" <= line then f.(data := Trim(line[5..], GoSpace))
    else f
  }

  datatype NextResult = Event(event: Fields) | EndOfStream | ReadFailure

  /** What one call of `Next` returns and leaves unread, with `f` collected so far. */
  function NextFrom(f: Fields, text: string, broken: bool): (NextResult, string)
    decreases |text|
  {
    var i := IndexOf(text, '\n');
    if i == |text| then
      if broken then (ReadFailure, "")
      else (if StripEol(text) == "" && Dispatchable(f) then Event(f) else EndOfStream, "")
    else
      var line, rest := StripEol(text[..i + 1]), text[i + 1..];
      if line != "" then NextFrom(GoField(f, line), rest, broken)
      else if IsDoneMarker(f) then (EndOfStream, rest)
      else if f.data != "" then (Event(f), rest)
      else NextFrom(NO_FIELDS, rest, broken)
  }

  /** Everything a consumer that keeps calling `Next` is given, and whether that ends in an error. */
  datatype GoRun = GoRun(events: seq<Fields>, failed: bool)

  /** The run over the lines of the body; the last one is what follows the last newline. */
  function GoLines(f: Fields, lines: seq<string>, broken: bool): GoRun
    requires |lines| >= 1
    decreases |lines|
  {
    var line := StripEol(lines[0]);
    if |lines| == 1 then
      GoRun(if !broken && line == "" && Dispatchable(f) then [f] else [], broken)
    else if line != "" then GoLines(GoField(f, line), lines[1..], broken)
    else if IsDoneMarker(f) then GoRun([], false)
    else
      var later := GoLines(NO_FIELDS, lines[1..], broken);
      if f.data != "" then GoRun([f] + later.events, later.failed) else later
  }

  function GoAll(f: Fields, text: string, broken: bool): GoRun {
    GoLines(f, SplitOn(text, '\n'), broken)
  }

  /** A run from a complete line on: the line's effect, then the run on the rest. */
  lemma GoLinesCons(f: Fields, line: string, more: seq<string>, broken: bool)
    requires |more| >= 1
    ensures var stripped := StripEol(line);
            GoLines(f, [line] + more, broken) ==
              if stripped != "" then GoLines(GoField(f, stripped), more, broken)
              else if IsDoneMarker(f) then GoRun([], false)
              else
                var later := GoLines(NO_FIELDS, more, broken);
                if f.data != "" then GoRun([f] + later.events, later.failed) else later
  {
    assert ([line] + more)[1..] == more;
  }

  /** A run on a text with a newline: the first line's effect, then the run on the rest. */
  lemma GoAllCut(f: Fields, text: string, broken: bool)
    requires IndexOf(text, '\n') < |text|
    ensures var i := IndexOf(text, '\n');
            var line, rest := StripEol(text[..i + 1]), text[i + 1..];
            GoAll(f, text, broken) ==
              if line != "" then GoAll(GoField(f, line), rest, broken)
              else if IsDoneMarker(f) then GoRun([], false)
              else
                var later := GoAll(NO_FIELDS, rest, broken);
                if f.data != "" then GoRun([f] + later.events, later.failed) else later
  {
    var i := IndexOf(text, '\n');
    SplitCut(text, '\n');
    GoLinesCons(f, text[..i], SplitOn(text[i + 1..], '\n'), broken);
    IndexOfFirst(text, '\n');
    assert text[..i + 1] == text[..i] + "\n";
    TrimRightDrops(text[..i], "\n", IsEol);
  }

  lemma GoAllEnd(f: Fields, text: string, broken: bool)
    requires IndexOf(text, '\n') == |text|
    ensures GoAll(f, text, broken)
         == GoRun(if !broken && StripEol(text) == "" && Dispatchable(f) then [f] else [], broken)
  {
    assert SplitOn(text, '\n') == [text];
  }

  lemma GoAllEmpty(broken: bool)
    ensures GoAll(NO_FIELDS, "", broken) == GoRun([], broken)
  {
    GoAllEnd(NO_FIELDS, "", broken);
  }

  /** The whole run is one call of `Next` after the other. */
  lemma {:induction false} GoAllIsNexts(f: Fields, text: string, broken: bool)
    ensures var (r, rest) := NextFrom(f, text, broken);
            var all := GoAll(f, text, broken);
            match r
            case EndOfStream => all == GoRun([], false)
            case ReadFailure => all == GoRun([], true)
            case Event(e) =>
              && |rest| < |text| + (if f.data != "" then 1 else 0)
              && (var later := GoAll(NO_FIELDS, rest, broken);
                  all == GoRun([e] + later.events, later.failed))
    decreases |text|
  {
    var i := IndexOf(text, '\n');
    if i < |text| {
      var line, rest := StripEol(text[..i + 1]), text[i + 1..];
      GoAllCut(f, text, broken);
      if line != "" {
        GoAllIsNexts(GoField(f, line), rest, broken);
      } else if !IsDoneMarker(f) && f.data == "" {
        GoAllIsNexts(NO_FIELDS, rest, broken);
      }
    } else {
      GoAllEnd(f, text, broken);
      GoAllEmpty(broken);
    }
  }

  /** The same run, one call of `Next` after the other. */
  ghost function GoNexts(text: string, broken: bool): GoRun
    decreases |text|
  {
    var (r, rest) := NextFrom(NO_FIELDS, text, broken);
    GoAllIsNexts(NO_FIELDS, text, broken);
    match r
    case EndOfStream => GoRun([], false)
    case ReadFailure => GoRun([], true)
    case Event(e) =>
      var later := GoNexts(rest, broken);
      GoRun([e] + later.events, later.failed)
  }

  lemma {:induction false} GoNextsIsAll(text: string, broken: bool)
    ensures GoNexts(text, broken) == GoAll(NO_FIELDS, text, broken)
    decreases |text|
  {
    GoAllIsNexts(NO_FIELDS, text, broken);
    var (r, rest) := NextFrom(NO_FIELDS, text, broken);
    if r.Event? {
      GoNextsIsAll(rest, broken);
    }
  }

  /**
   What `Iter` hands to the callback of the rest of a run from poll `n` on, and how it ends, when the
   context is cancelled from poll `cancelAt` on and the callback fails on its call `failAt`.
   */
  function Iterated(left: GoRun, n: nat, cancelAt: Option<nat>, failAt: Option<nat>): Iteration
    decreases |left.events|
  {
    if cancelAt.Some? && cancelAt.value <= n then Iteration([], Cancelled)
    else if left.events == [] then Iteration([], if left.failed then ReadError else Finished)
    else
      var event := left.events[0];
      if failAt == Some(n) then Iteration([event], CallbackError)
      else
        var more := Iterated(GoRun(left.events[1..], left.failed), n + 1, cancelAt, failAt);
        Iteration([event] + more.delivered, more.outcome)
  }

  datatype IterOutcome = Finished | Cancelled | ReadError | CallbackError

  datatype Iteration = Iteration(delivered: seq<Fields>, outcome: IterOutcome) {
    function After(earlier: seq<Fields>): Iteration {
      Iteration(earlier + delivered, outcome)
    }
  }

  lemma AfterOneMore(earlier: seq<Fields>, event: Fields, more: Iteration)
    ensures Iteration([event] + more.delivered, more.outcome).After(earlier) == more.After(earlier + [event])
  {
    assert earlier + ([event] + more.delivered) == (earlier + [event]) + more.delivered;
  }

  lemma AfterLast(earlier: seq<Fields>, outcome: IterOutcome)
    ensures Iteration([], outcome).After(earlier) == Iteration(earlier, outcome)
  {
    assert earlier + [] == earlier;
  }

  lemma AfterNone(i: Iteration)
    ensures i.After([]) == i
  {
    assert [] + i.delivered == i.delivered;
  }

  lemma FirstEvent(left: GoRun, event: Fields, later: GoRun, earlier: seq<Fields>,
                   cancelAt: Option<nat>, failAt: Option<nat>)
    requires left == GoRun([event] + later.events, later.failed)
    requires !(cancelAt.Some? && cancelAt.value <= |earlier|)
    ensures Iterated(left, |earlier|, cancelAt, failAt).After(earlier) ==
              if failAt == Some(|earlier|) then Iteration(earlier + [event], CallbackError)
              else Iterated(later, |earlier| + 1, cancelAt, failAt).After(earlier + [event])
  {
    assert left.events[1..] == later.events;
    AfterOneMore(earlier, event, Iterated(later, |earlier| + 1, cancelAt, failAt));
  }

  lemma {:induction false} IteratedFails(left: GoRun, n: nat, cancelAt: Option<nat>, failAt: Option<nat>, k: nat)
    requires failAt == Some(n + k) && k < |left.events| && (cancelAt.Some? ==> n + k < cancelAt.value)
    ensures Iterated(left, n, cancelAt, failAt) == Iteration(left.events[..k + 1], CallbackError)
    decreases k
  {
    var rest := GoRun(left.events[1..], left.failed);
    assert left.events[..k + 1] == [left.events[0]] + rest.events[..k];
    if k > 0 {
      IteratedFails(rest, n + 1, cancelAt, failAt, k - 1);
    }
  }

  lemma {:induction false} IteratedCancels(left: GoRun, n: nat, cancelAt: Option<nat>, failAt: Option<nat>, k: nat)
    requires cancelAt == Some(n + k) && k <= |left.events| && (failAt.Some? ==> n + k <= failAt.value)
    ensures Iterated(left, n, cancelAt, failAt) == Iteration(left.events[..k], Cancelled)
    decreases k
  {
    if k > 0 {
      var rest := GoRun(left.events[1..], left.failed);
      assert left.events[..k] == [left.events[0]] + rest.events[..k - 1];
      IteratedCancels(rest, n + 1, cancelAt, failAt, k - 1);
    }
  }

  lemma {:induction false} IteratedEnds(left: GoRun, n: nat, cancelAt: Option<nat>, failAt: Option<nat>)
    requires (cancelAt.Some? ==> n + |left.events| < cancelAt.value)
    requires (failAt.Some? ==> n + |left.events| <= failAt.value)
    ensures Iterated(left, n, cancelAt, failAt) == Iteration(left.events, if left.failed then ReadError else Finished)
    decreases |left.events|
  {
    if left.events != [] {
      IteratedEnds(GoRun(left.events[1..], left.failed), n + 1, cancelAt, failAt);
    }
  }

  /** The callback sees the events up to the first of cancellation and failure, and otherwise all of them. */
  lemma IteratedUntil(left: GoRun, n: nat, cancelAt: Option<nat>, failAt: Option<nat>)
    requires (cancelAt.Some? ==> n <= cancelAt.value) && (failAt.Some? ==> n <= failAt.value)
    ensures var end := n + |left.events|;
            var fails := failAt.Some? && failAt.value < end;
            var cancels := cancelAt.Some? && cancelAt.value <= end;
            Iterated(left, n, cancelAt, failAt) ==
              if fails && (cancels ==> failAt.value < cancelAt.value) then
                Iteration(left.events[..failAt.value + 1 - n], CallbackError)
              else if cancels then Iteration(left.events[..cancelAt.value - n], Cancelled)
              else Iteration(left.events, if left.failed then ReadError else Finished)
  {
    var end := n + |left.events|;
    var cancels := cancelAt.Some? && cancelAt.value <= end;
    if failAt.Some? && failAt.value < end && (cancels ==> failAt.value < cancelAt.value) {
      IteratedFails(left, n, cancelAt, failAt, failAt.value - n);
    } else if cancels {
      IteratedCancels(left, n, cancelAt, failAt, cancelAt.value - n);
    } else {
      IteratedEnds(left, n, cancelAt, failAt);
    }
  }

  // ---------- the code ----------

  class SseReader {
    var unread: string
    var open: bool
    const broken: bool

    constructor (text: string, broken: bool)
      ensures unread == text && open && this.broken == broken
    {
      unread, open := text, true;
      this.broken := broken;
    }

    /** `ReadString('\n')`: the next line with its newline, or what is left at the end. */
    method ReadLine() returns (line: string, atEnd: bool)
      modifies this`unread
      ensures var i := IndexOf(old(unread), '\n');
              && atEnd == (i == |old(unread)|)
              && line == (if atEnd then old(unread) else old(unread)[..i + 1])
              && unread == (if atEnd then "" else old(unread)[i + 1..])
    {
      var i := IndexOf(unread, '\n');
      atEnd := i == |unread|;
      if atEnd {
        line, unread := unread, "";
      } else {
        line, unread := unread[..i + 1], unread[i + 1..];
      }
    }

    method Next() returns (r: NextResult)
      modifies this`unread
      ensures (r, unread) == NextFrom(NO_FIELDS, old(unread), broken)
      ensures r.Event? ==> |unread| < |old(unread)|
    {
      var event := NO_FIELDS;
      ghost var start := unread;
      while true
        invariant NextFrom(event, unread, broken) == NextFrom(NO_FIELDS, start, broken)
        invariant |unread| <= |start| && (event.data != "" ==> |unread| < |start|)
        decreases |unread|
      {
        ghost var before := unread;
        var raw, atEnd := ReadLine();
        var line := StripEol(raw);
        if atEnd && broken {
          return ReadFailure;
        }
        if "id:" <= line {
          event := event.(id := Trim(line[3..], GoSpace));
        } else if "event:" <= line {
          event := event.(name := Trim(line[6..], GoSpace));
        } else if "data:" <= line {
          event := event.(data := Trim(line[5..], GoSpace));
        } else if line == "" {
          if event.name == "done" || event.data == "[DONE]" {
            return EndOfStream;
          }
          if event.data != "" {
            return Event(event);
          }
          event := NO_FIELDS;
        }
        if atEnd {
          return EndOfStream;
        }
      }
    }

    method Iter(cancelAt: Option<nat>, failAt: Option<nat>) returns (delivered: seq<Fields>, outcome: IterOutcome)
      modifies this
      ensures !open
      ensures Iteration(delivered, outcome) == Iterated(GoNexts(old(unread), broken), 0, cancelAt, failAt)
    {
      delivered := [];
      ghost var whole := Iterated(GoNexts(unread, broken), 0, cancelAt, failAt);
      AfterNone(whole);
      while true
        invariant whole == Iterated(GoNexts(unread, broken), |delivered|, cancelAt, failAt).After(delivered)
        decreases |unread|
      {
        ghost var left := GoNexts(unread, broken);
        if cancelAt.Some? && cancelAt.value <= |delivered| {
          AfterLast(delivered, Cancelled);
          open := false;
          return delivered, Cancelled;
        }
        var r := Next();
        match r {
          case EndOfStream =>
            AfterLast(delivered, Finished);
            open := false;
            return delivered, Finished;
          case ReadFailure =>
            AfterLast(delivered, ReadError);
            open := false;
            return delivered, ReadError;
          case Event(event) =>
            FirstEvent(left, event, GoNexts(unread, broken), delivered, cancelAt, failAt);
            delivered := delivered + [event];
            if failAt == Some(|delivered| - 1) {
              open := false;
              return delivered, CallbackError;
            }
        }
      }
    }
  }
}
