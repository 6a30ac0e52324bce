/** From `Publish` through a subscriber's channel and the wire to both readers. */
module EndToEnd {
  import opened Wrappers
  import opened SseFormat
  import opened Text
  import opened SseWriter
  import opened SseRoundTrip
  import opened Hub
  import opened HubSteps
  import opened HubProgress
  import Go = GoReader
  import Ts = TsStream

  /** The events that entered the subscriber's channel. */
  function AcceptedEvents(c: Sub): seq<Event> {
    EventsOf(Accepted(c.offers))
  }

  /** What is on the wire is a beginning of what was accepted; all of it once the handler has finished. */
  lemma WireIsAccepted(c: Sub)
    requires BufferOk(c) && WireOk(c)
    ensures Written(c) <= AcceptedEvents(c)
    ensures c.server == Finished ==> Written(c) == AcceptedEvents(c) && EndingOf(c) == Closed
    ensures EndingOf(c).Broken? ==> EndingOf(c).e in AcceptedEvents(c)
  {
    var all := Accepted(c.offers);
    assert EventsOf(c.received) == AcceptedEvents(c)[..|c.received|];
    if c.server == Failed {
      var n := |c.received| - 1;
      assert EventsOf(c.received[..n]) == AcceptedEvents(c)[..n];
      assert AcceptedEvents(c)[n] == c.received[n].event;
    }
    if c.server == Finished {
      assert c.received + [] == c.received;
    }
  }

  lemma GoReadsWire(c: Sub, arrived: string, broken: bool)
    requires BufferOk(c) && WireOk(c) && AllClean(AcceptedEvents(c), GoSpace) && arrived <= c.wire
    ensures Go.GoAll(NO_FIELDS, arrived, broken).events <= AllFields(AcceptedEvents(c))
    ensures Go.GoAll(NO_FIELDS, arrived, broken).failed <==> broken && !(c.server == Finished && arrived == c.wire)
    ensures c.server == Finished && arrived == c.wire ==>
              Go.GoAll(NO_FIELDS, arrived, broken) == Go.GoRun(AllFields(AcceptedEvents(c)), false)
  {
    WireIsAccepted(c);
    var es, ending := Written(c), EndingOf(c);
    assert AllClean(es, GoSpace);
    GoCutStream(es, ending, arrived, broken);
    var n := Complete(es, |arrived| + if broken then 0 else 1);
    AllFieldsPrefix(AcceptedEvents(c), n);
    assert es[..n] == AcceptedEvents(c)[..n];
    if c.server == Finished && arrived == c.wire {
      assert DONE_TEXT + "" == DONE_TEXT;
      GoRoundTrip(es, "", broken);
    }
  }

  /** What the browser's caller gets for published events: their data, their type or "message", their id. */
  ghost predicate Shows(yielded: seq<Ts.TsEvent>, es: seq<Event>) {
    && |yielded| == |es|
    && forall i | 0 <= i < |es| ::
         && es[i].json == Some(yielded[i].data)
         && yielded[i].event == (if es[i].name == "" then "message" else es[i].name)
         && yielded[i].id == (if es[i].id == "" then None else Some(es[i].id))
  }

  lemma FieldsShow(es: seq<Event>)
    requires AllMarshal(es)
    ensures Shows(Ts.ToTsEvents(AllFields(es)), es)
  {
    Ts.ToTsEventsPresents(AllFields(es));
    forall i | 0 <= i < |es| ensures AllFields(es)[i] == FieldsOf(es[i]) && es[i] in es {
      FieldsAt(es, i);
    }
  }

  lemma {:induction false} FieldsAt(es: seq<Event>, i: nat)
    requires i < |es|
    ensures AllFields(es)[i] == FieldsOf(es[i])
  {
    if i > 0 {
      FieldsAt(es[1..], i - 1);
    }
  }

  lemma TsReadsWire(c: Sub, arrived: string)
    requires BufferOk(c) && WireOk(c) && AllClean(AcceptedEvents(c), JsSpace) && arrived <= c.wire
    ensures var r := Ts.TsRun(Ts.TS_START, arrived);
            && r.events <= AllFields(AcceptedEvents(c)) && |r.events| <= |Written(c)|
            && (c.server == Finished && arrived == c.wire ==> r.done && r.events == AllFields(AcceptedEvents(c)))
  {
    WireIsAccepted(c);
    var es, ending := Written(c), EndingOf(c);
    assert AllClean(es, JsSpace);
    TsCutStream(es, ending, arrived);
    AllFieldsPrefix(AcceptedEvents(c), |es|);
    assert es == AcceptedEvents(c)[..|es|];
    if c.server == Finished && arrived == c.wire {
      TsReadsAll(es);
    }
  }

  lemma TsReadsAll(es: seq<Event>)
    requires AllMarshal(es) && AllClean(es, JsSpace)
    ensures var r := Ts.TsRun(Ts.TS_START, EncodeAll(es) + DONE_TEXT);
            r.done && r.events == AllFields(es)
  {
    assert DONE_TEXT + "" == DONE_TEXT;
    TsRoundTrip(Ts.TS_START, es, "");
    assert Ts.TS_START.events + AllFields(es) == AllFields(es);
  }

  /**
   End to end in Go: in every state of every run, whatever part of a subscriber's wire has
   arrived, the reader has yielded a prefix of the accepted events, in order and unaltered;
   from a finished wire it yields all of them and ends cleanly, from any other it reports when the
   connection broke.
   */
  lemma GoEndToEnd(run: seq<State>, i: nat, ch: nat, arrived: string, broken: bool)
    requires IsRun(run) && i < |run| && ch < |run[i].subs|
    requires AllClean(AcceptedEvents(run[i].subs[ch]), GoSpace)
    requires arrived <= run[i].subs[ch].wire
    ensures var c := run[i].subs[ch];
            && Go.GoAll(NO_FIELDS, arrived, broken).events <= AllFields(AcceptedEvents(c))
            && (Go.GoAll(NO_FIELDS, arrived, broken).failed <==> broken && !(c.server == Finished && arrived == c.wire))
            && (c.server == Finished && arrived == c.wire ==>
                  Go.GoAll(NO_FIELDS, arrived, broken) == Go.GoRun(AllFields(AcceptedEvents(c)), false))
  {
    RunKeeps(run, i);
    assert run[i].subs[ch] in run[i].subs;
    GoReadsWire(run[i].subs[ch], arrived, broken);
  }

  /** What the browser has yielded of the accepted events shows them. */
  lemma YieldedShow(c: Sub, yielded: seq<Fields>)
    requires BufferOk(c) && WireOk(c) && yielded <= AllFields(AcceptedEvents(c)) && |yielded| <= |Written(c)|
    ensures |yielded| <= |AcceptedEvents(c)|
    ensures Shows(Ts.ToTsEvents(yielded), AcceptedEvents(c)[..|yielded|])
  {
    var es, n := AcceptedEvents(c), |yielded|;
    WireIsAccepted(c);
    assert es[..n] == Written(c)[..n];
    forall e <- es[..n] ensures e in Written(c) {}
    AllFieldsPrefix(es, n);
    assert yielded == AllFields(es)[..n];
    FieldsShow(es[..n]);
  }

  /**
   End to end in the browser: however the arrived part is cut into chunks, the parser has yielded a
   prefix of the accepted events, and from a finished wire all of them, and has stopped; its caller gets
   their data, types and ids.
   */
  lemma TsEndToEnd(run: seq<State>, i: nat, ch: nat, chunks: seq<string>)
    requires IsRun(run) && i < |run| && ch < |run[i].subs|
    requires AllClean(AcceptedEvents(run[i].subs[ch]), JsSpace)
    requires Concat(chunks) <= run[i].subs[ch].wire
    ensures var c, r := run[i].subs[ch], Ts.After(chunks, |chunks|);
            && r.events <= AllFields(AcceptedEvents(c))
            && |r.events| <= |AcceptedEvents(c)|
            && Shows(Ts.ToTsEvents(r.events), AcceptedEvents(c)[..|r.events|])
            && (c.server == Finished && Concat(chunks) == c.wire ==>
                  r.done && r.events == AllFields(AcceptedEvents(c))
                  && Shows(Ts.ToTsEvents(r.events), AcceptedEvents(c)))
  {
    RunKeeps(run, i);
    assert run[i].subs[ch] in run[i].subs;
    TsReadsWire(run[i].subs[ch], Concat(chunks));
    var c, r := run[i].subs[ch], Ts.TsRun(Ts.TS_START, Concat(chunks));
    YieldedShow(c, r.events);
    assert c.server == Finished && Concat(chunks) == c.wire ==> AcceptedEvents(c)[..|r.events|] == AcceptedEvents(c);
    Ts.AfterIsRun(chunks, |chunks|);
    assert chunks[..|chunks|] == chunks;
  }

  /**
   When nobody publishes, a client's stream can be completed: it unsubscribes, its handler writes what waits
   and ends, and from that wire both readers get exactly the accepted events that are clean for them.
   */
  lemma StreamCompletes(run: seq<State>, id: string, topic: string, ch: nat) returns (longer: seq<State>)
    requires IsRun(run) && Last(run).calls == map[] && Registered(Last(run).clients, topic, id, ch)
    requires ch < |Last(run).subs| && Last(run).subs[ch].server == Serving
    requires AllMarshal(EventsOf(Last(run).subs[ch].ch.buf))
    ensures GoesOn(run, longer) && ch < |Last(longer).subs|
    ensures var es, wire := AcceptedEvents(Last(run).subs[ch]), Last(longer).subs[ch].wire;
            && (AllClean(es, GoSpace) ==> forall broken :: Go.GoAll(NO_FIELDS, wire, broken) == Go.GoRun(AllFields(es), false))
            && (AllClean(es, JsSpace) ==>
                  Ts.TsRun(Ts.TS_START, wire).done && Shows(Ts.ToTsEvents(Ts.TsRun(Ts.TS_START, wire).events), es))
  {
    longer := UnsubscribedStreamFinishes(run, id, topic, ch);
    var es, wire := AcceptedEvents(Last(run).subs[ch]), Last(longer).subs[ch].wire;
    assert DONE_TEXT + "" == DONE_TEXT;
    if AllClean(es, GoSpace) {
      forall broken ensures Go.GoAll(NO_FIELDS, wire, broken) == Go.GoRun(AllFields(es), false) {
        GoRoundTrip(es, "", broken);
      }
    }
    if AllClean(es, JsSpace) {
      TsReadsAll(es);
      FieldsShow(es);
    }
  }
}
