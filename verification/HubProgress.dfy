/**
 What the hub's steps bring about, said of the channels and registrations alone, and what can always
 still happen: a publication gets through, and a stream whose client unsubscribes comes to its end.
 */
module HubProgress {
  import opened Hub
  import opened SseWriter
  import opened HubSteps

  // ---------- single steps ----------

  /** Nobody is publishing, or has lately: these parts of the state are as before. */
  predicate SamePublishers(s: State, s': State) {
    s'.calls == s.calls && s'.sent == s.sent && s'.ended == s.ended && s'.panicked == s.panicked
  }

  /** A subscription opens a new empty channel and registers it; whatever was registered for the client is not any more. */
  lemma SubscribeOpens(run: seq<State>, i: nat, id: string, topic: string)
    requires IsRun(run) && i < |run| && run[i].calls == map[]
    ensures Enabled(run[i], Subscribe(id, topic))
    ensures var s, s' := run[i], Apply(run[i], Subscribe(id, topic));
            && s'.subs == s.subs + [Sub(GoChan([], false), [], [], "", Serving)]
            && (forall t, j, c: nat :: Registered(s'.clients, t, j, c) <==>
                  if t == topic && j == id then c == |s.subs| else Registered(s.clients, t, j, c))
            && SamePublishers(s, s')
  {
    RunKeeps(run, i);
    EnrolKeeps(run[i].clients, id, topic, |run[i].subs|);
  }

  /** Unsubscribing closes the client's channel, with what it holds, and removes the client; no other changes. */
  lemma UnsubscribeCloses(run: seq<State>, i: nat, id: string, topic: string, ch: nat)
    requires IsRun(run) && i < |run| && run[i].calls == map[] && Registered(run[i].clients, topic, id, ch)
    ensures Enabled(run[i], Unsubscribe(id, topic)) && ch < |run[i].subs|
    ensures var s, s' := run[i], Apply(run[i], Unsubscribe(id, topic));
            var c := s.subs[ch];
            && !c.ch.closed
            && s'.subs == s.subs[ch := Sub(GoChan(c.ch.buf, true), c.offers, c.received, c.wire, c.server)]
            && (forall t, j, d: nat :: Registered(s'.clients, t, j, d) <==>
                  Registered(s.clients, t, j, d) && !(t == topic && j == id))
            && SamePublishers(s, s')
  {
    RunKeeps(run, i);
    RemoveKeeps(run[i].clients, id, topic, |run[i].subs|);
  }

  /** Without a registration nothing happens. */
  lemma UnsubscribeStrangers(run: seq<State>, i: nat, id: string, topic: string)
    requires IsRun(run) && i < |run| && run[i].calls == map[]
    requires forall ch: nat :: !Registered(run[i].clients, topic, id, ch)
    ensures Enabled(run[i], Unsubscribe(id, topic)) && Apply(run[i], Unsubscribe(id, topic)) == run[i]
  {
    RunKeeps(run, i);
    if IsClient(run[i].clients, topic, id) {
      assert Registered(run[i].clients, topic, id, run[i].clients[topic][id]);
    }
  }

  // ---------- handlers that have stopped ----------

  lemma StoppedStays(s: State, step: Step, ch: nat)
    requires Enabled(s, step) && ch < |s.subs| && s.subs[ch].server != Serving
    ensures var s' := Apply(s, step);
            && |s.subs| <= |s'.subs| && s'.subs[ch].server == s.subs[ch].server
            && s'.subs[ch].wire == s.subs[ch].wire && s'.subs[ch].received == s.subs[ch].received
  {
  }

  /** A handler that has finished, failed or been cancelled never receives or writes again. */
  lemma {:induction false} StoppedWritesNothing(run: seq<State>, i: nat, j: nat, ch: nat)
    requires IsRun(run) && i <= j < |run| && ch < |run[i].subs| && run[i].subs[ch].server != Serving
    ensures ch < |run[j].subs| && run[j].subs[ch].server == run[i].subs[ch].server
    ensures run[j].subs[ch].wire == run[i].subs[ch].wire && run[j].subs[ch].received == run[i].subs[ch].received
    decreases j
  {
    if i < j {
      StoppedWritesNothing(run, i, j - 1, ch);
      assert Next(run[j - 1], run[j - 1 + 1]);
      var step :| Enabled(run[j - 1], step) && run[j] == Apply(run[j - 1], step);
      StoppedStays(run[j - 1], step, ch);
    }
  }

  /** From the moment its context is done a handler writes nothing more. */
  lemma CancelledWritesNothing(run: seq<State>, i: nat, j: nat, ch: nat)
    requires IsRun(run) && i < j < |run| && Enabled(run[i], Cancel(ch)) && run[i + 1] == Apply(run[i], Cancel(ch))
    ensures ch < |run[j].subs| && run[j].subs[ch].server == Cancelled
    ensures run[j].subs[ch].wire == run[i].subs[ch].wire && run[j].subs[ch].received == run[i].subs[ch].received
  {
    StoppedWritesNothing(run, i + 1, j, ch);
  }

  // ---------- runs that go on ----------

  function Last(run: seq<State>): State
    requires run != []
  {
    run[|run| - 1]
  }

  /** `longer` goes on from where `run` is. */
  ghost predicate GoesOn(run: seq<State>, longer: seq<State>) {
    IsRun(longer) && run != [] && |run| <= |longer| && longer[..|run|] == run
  }

  lemma OneMore(run: seq<State>, step: Step) returns (longer: seq<State>)
    requires IsRun(run) && Enabled(Last(run), step)
    ensures GoesOn(run, longer) && Last(longer) == Apply(Last(run), step)
  {
    longer := run + [Apply(Last(run), step)];
    forall i | 0 <= i < |longer| - 1 ensures Next(longer[i], longer[i + 1]) {
      if i < |run| - 1 {
        assert Next(run[i], run[i + 1]);
      }
    }
  }

  lemma GoesOnTwice(a: seq<State>, b: seq<State>, c: seq<State>)
    requires GoesOn(a, b) && GoesOn(b, c)
    ensures GoesOn(a, c)
  {
    assert c[..|a|] == c[..|b|][..|a|];
  }

  lemma NeverPanicked(run: seq<State>)
    requires IsRun(run)
    ensures !Last(run).panicked
  {
    RunKeeps(run, |run| - 1);
  }

  // ---------- a publication gets through ----------

  /** The subscription after it was offered the message: taken if there is room, and noted either way. */
  predicate WasOffered(c: Sub, c': Sub, msg: Msg) {
    && c'.ch == GoChan(if |c.ch.buf| < 32 then c.ch.buf + [msg] else c.ch.buf, c.ch.closed)
    && c'.offers == c.offers + [Offer(msg, |c.ch.buf|)]
    && c'.received == c.received && c'.wire == c.wire && c'.server == c.server
  }

  /** Of the channels exactly these were offered the message. */
  ghost predicate OnlyOffered(s: State, s': State, targets: set<nat>, msg: Msg) {
    && |s'.subs| == |s.subs|
    && forall ch | 0 <= ch < |s.subs| ::
         if ch in targets then WasOffered(s.subs[ch], s'.subs[ch], msg) else s'.subs[ch] == s.subs[ch]
  }

  lemma SendOffersOne(s: State, pub: nat, ch: nat)
    requires Enabled(s, Send(pub, ch)) && ch < |s.subs| && !s.subs[ch].ch.closed
    ensures var call, s' := s.calls[pub], Apply(s, Send(pub, ch));
            && OnlyOffered(s, s', {ch}, call.msg)
            && s'.calls == s.calls[pub := call.(todo := call.todo - {ch})]
            && s'.clients == s.clients && s'.sent == s.sent && s'.ended == s.ended
  {
  }

  lemma OfferedTwice(a: State, b: State, c: State, first: nat, more: set<nat>, msg: Msg)
    requires OnlyOffered(a, b, {first}, msg) && OnlyOffered(b, c, more, msg) && first !in more
    ensures OnlyOffered(a, c, {first} + more, msg)
  {
    forall ch | 0 <= ch < |a.subs|
      ensures if ch in {first} + more then WasOffered(a.subs[ch], c.subs[ch], msg) else c.subs[ch] == a.subs[ch] {
    }
  }

  lemma SendsOne(run: seq<State>, pub: nat, ch: nat) returns (longer: seq<State>)
    requires IsRun(run) && pub in Last(run).calls && ch in Last(run).calls[pub].todo
    ensures GoesOn(run, longer)
    ensures var s, s' := Last(run), Last(longer);
            var call := s.calls[pub];
            && OnlyOffered(s, s', {ch}, call.msg)
            && s'.calls == s.calls[pub := call.(todo := call.todo - {ch})]
            && s'.clients == s.clients && s'.sent == s.sent && s'.ended == s.ended
  {
    RunKeeps(run, |run| - 1);
    SendIsSafe(Last(run), pub, ch);
    SendOffersOne(Last(run), pub, ch);
    longer := OneMore(run, Send(pub, ch));
  }

  /** The publisher sends to whatever is still to come. */
  lemma {:induction false} SendsAll(run: seq<State>, pub: nat) returns (longer: seq<State>)
    requires IsRun(run) && pub in Last(run).calls
    ensures GoesOn(run, longer)
    ensures var s, s' := Last(run), Last(longer);
            var call := s.calls[pub];
            && OnlyOffered(s, s', call.todo, call.msg)
            && s'.calls == s.calls[pub := call.(todo := {})]
            && s'.clients == s.clients && s'.sent == s.sent && s'.ended == s.ended
    decreases |Last(run).calls[pub].todo|
  {
    var s := Last(run);
    var call := s.calls[pub];
    if call.todo == {} {
      longer := run;
      assert call.(todo := {}) == call && s.calls[pub := call] == s.calls;
    } else {
      var ch :| ch in call.todo;
      var sent := SendsOne(run, pub, ch);
      longer := SendsAll(sent, pub);
      GoesOnTwice(run, sent, longer);
      OfferedTwice(s, Last(sent), Last(longer), ch, call.todo - {ch}, call.msg);
      assert {ch} + (call.todo - {ch}) == call.todo;
      assert s.calls[pub := call.(todo := call.todo - {ch})][pub := call.(todo := {})] == s.calls[pub := call.(todo := {})];
    }
  }

  /** The channels registered under the topic, and no others. */
  ghost predicate AreRegistered(clients: Clients, topic: string, targets: set<nat>) {
    forall ch: nat :: ch in targets <==> exists i :: Registered(clients, topic, i, ch)
  }

  /**
   When nobody publishes, a publication can be run to its end: it offers the event, once, to exactly the
   channels registered under the topic, each of which takes it unless it holds 32 events already, and
   leaves everything else as it is.
   */
  lemma PublicationCompletes(run: seq<State>, pub: nat, topic: string, event: Event)
    returns (longer: seq<State>, targets: set<nat>)
    requires IsRun(run) && Last(run).calls == map[]
    ensures GoesOn(run, longer) && AreRegistered(Last(run).clients, topic, targets)
    ensures var s, s' := Last(run), Last(longer);
            var msg := Msg(pub, Count(s.sent, pub), event);
            && OnlyOffered(s, s', targets, msg)
            && s'.clients == s.clients && s'.calls == map[]
            && s'.sent == s.sent[pub := Count(s.sent, pub) + 1]
            && s'.ended == s.ended + [Call(topic, msg, targets, {})]
  {
    var s := Last(run);
    RunKeeps(run, |run| - 1);
    targets := Targets(s.clients, topic);
    TargetsAreRegistered(s.clients, topic);
    var begun := OneMore(run, BeginPublish(pub, topic, event));
    var sent := SendsAll(begun, pub);
    var call := Last(sent).calls[pub];
    RunKeeps(sent, |sent| - 1);
    longer := OneMore(sent, EndPublish(pub));
    GoesOnTwice(run, begun, sent);
    GoesOnTwice(run, sent, longer);
    assert Last(begun).subs == s.subs;
  }

  // ---------- a stream comes to its end ----------

  /** A handler that still serves can be cancelled, whatever the hub is doing, and that is all that happens. */
  lemma CanBeCancelled(run: seq<State>, ch: nat) returns (longer: seq<State>)
    requires IsRun(run) && ch < |Last(run).subs| && Last(run).subs[ch].server == Serving
    ensures GoesOn(run, longer)
    ensures Last(longer) == Last(run).(subs := Last(run).subs[ch := Last(run).subs[ch].(server := Cancelled)])
  {
    NeverPanicked(run);
    longer := OneMore(run, Cancel(ch));
  }

  /** Only this subscription has changed. */
  predicate OnlySub(s: State, s': State, ch: nat) {
    && ch < |s.subs| == |s'.subs| && s'.subs == s.subs[ch := s'.subs[ch]]
    && s'.clients == s.clients && SamePublishers(s, s')
  }

  lemma OnlySubTwice(a: State, b: State, c: State, ch: nat)
    requires OnlySub(a, b, ch) && OnlySub(b, c, ch)
    ensures OnlySub(a, c, ch)
  {
  }

  /** The handler receives and writes all that waits. */
  lemma {:induction false} ServesAll(run: seq<State>, ch: nat) returns (longer: seq<State>)
    requires IsRun(run) && ch < |Last(run).subs| && Last(run).subs[ch].server == Serving
    requires AllMarshal(EventsOf(Last(run).subs[ch].ch.buf))
    ensures GoesOn(run, longer) && OnlySub(Last(run), Last(longer), ch)
    ensures var c, c' := Last(run).subs[ch], Last(longer).subs[ch];
            && c'.server == Serving && c'.ch == GoChan([], c.ch.closed) && c'.offers == c.offers
    decreases |Last(run).subs[ch].ch.buf|
  {
    var c := Last(run).subs[ch];
    if c.ch.buf == [] {
      longer := run;
      assert Last(run).subs == Last(run).subs[ch := c];
    } else {
      NeverPanicked(run);
      var served := OneMore(run, Serve(ch));
      MarshalTail(c.ch.buf);
      longer := ServesAll(served, ch);
      GoesOnTwice(run, served, longer);
      OnlySubTwice(Last(run), Last(served), Last(longer), ch);
    }
  }

  lemma MarshalTail(msgs: seq<Msg>)
    requires msgs != [] && AllMarshal(EventsOf(msgs))
    ensures msgs[0].event.json.Some? && AllMarshal(EventsOf(msgs[1..]))
  {
    assert EventsOf(msgs)[0] in EventsOf(msgs);
    forall e <- EventsOf(msgs[1..]) ensures e in EventsOf(msgs) {
      var i :| 0 <= i < |msgs[1..]| && EventsOf(msgs[1..])[i] == e;
      assert EventsOf(msgs)[i + 1] == e;
    }
  }

  /** From a closed channel the handler comes to the done marker, having written everything that was accepted. */
  lemma Finishes(run: seq<State>, ch: nat) returns (longer: seq<State>)
    requires IsRun(run) && ch < |Last(run).subs|
    requires var c := Last(run).subs[ch]; c.server == Serving && c.ch.closed && AllMarshal(EventsOf(c.ch.buf))
    ensures GoesOn(run, longer) && OnlySub(Last(run), Last(longer), ch)
    ensures var c, c' := Last(run).subs[ch], Last(longer).subs[ch];
            var es := EventsOf(Accepted(c.offers));
            && c'.server == Finished && c'.offers == c.offers
            && AllMarshal(es) && c'.wire == EncodeAll(es) + DONE_TEXT
  {
    var served := ServesAll(run, ch);
    NeverPanicked(served);
    longer := OneMore(served, Finish(ch));
    GoesOnTwice(run, served, longer);
    OnlySubTwice(Last(run), Last(served), Last(longer), ch);
    FinishedWire(longer, ch);
  }

  /** What a finished handler has written. */
  lemma FinishedWire(run: seq<State>, ch: nat)
    requires IsRun(run) && ch < |Last(run).subs| && Last(run).subs[ch].server == Finished
    ensures var c := Last(run).subs[ch];
            var es := EventsOf(Accepted(c.offers));
            AllMarshal(es) && c.wire == EncodeAll(es) + DONE_TEXT
  {
    RunKeeps(run, |run| - 1);
    var c := Last(run).subs[ch];
    assert c in Last(run).subs;
    assert c.received + [] == c.received;
  }

  /**
   When nobody publishes, a client that unsubscribes can have its stream completed: the handler writes what
   was accepted into the channel, all of it and in order, and the done marker, if the data marshals.
   */
  lemma UnsubscribedStreamFinishes(run: seq<State>, id: string, topic: string, ch: nat) returns (longer: seq<State>)
    requires IsRun(run) && Last(run).calls == map[] && Registered(Last(run).clients, topic, id, ch)
    requires ch < |Last(run).subs| && Last(run).subs[ch].server == Serving
    requires AllMarshal(EventsOf(Last(run).subs[ch].ch.buf))
    ensures GoesOn(run, longer) && ch < |Last(longer).subs|
    ensures forall t, j, d: nat :: Registered(Last(longer).clients, t, j, d) <==>
              Registered(Last(run).clients, t, j, d) && !(t == topic && j == id)
    ensures var c, c' := Last(run).subs[ch], Last(longer).subs[ch];
            var es := EventsOf(Accepted(c.offers));
            && c'.server == Finished && c'.offers == c.offers
            && AllMarshal(es) && c'.wire == EncodeAll(es) + DONE_TEXT
  {
    UnsubscribeCloses(run, |run| - 1, id, topic, ch);
    var closed := OneMore(run, Unsubscribe(id, topic));
    longer := Finishes(closed, ch);
    GoesOnTwice(run, closed, longer);
  }
}
