/**
 The hub under concurrency: subscribers, publishers and stream handlers interleave step by step.

 `Subscribe` and `Unsubscribe` hold the write lock for their whole body and are one step each,
 possible only while no publisher holds the read lock.  A `Publish` is many steps under the
 read lock: it begins, sends to one channel after the other, and ends.  Each subscriber's
 channel is drained by one `ServeSSE`.
 */
module HubSteps {
  import opened Hub
  import opened SseWriter

  /** A published event with the publisher and the position in that publisher's calls. */
  datatype Msg = Msg(pub: nat, num: nat, event: Event)

  /** One non-blocking send and the number of events it found in the buffer. */
  datatype Offer = Offer(msg: Msg, fill: nat)

  datatype Server = Serving | Cancelled | Finished | Failed

  /** A subscription: its channel, the sends to it, and what its handler received and wrote. */
  datatype Sub = Sub(ch: GoChan<Msg>, offers: seq<Offer>, received: seq<Msg>, wire: string, server: Server)

  const NEW_SUB := Sub(GoChan([], false), [], [], "", Serving)

  /** A `Publish` call: the channels registered when it took the lock, and those still to come. */
  datatype Call = Call(topic: string, msg: Msg, targets: set<nat>, todo: set<nat>)

  /** `calls` are the publishers holding the read lock; `sent` counts the calls each has made. */
  datatype State = State(clients: Clients, subs: seq<Sub>, calls: map<nat, Call>, sent: map<nat, nat>,
                         ended: seq<Call>, panicked: bool)

  const START := State(map[], [], map[], map[], [], false)

  function Count(sent: map<nat, nat>, pub: nat): nat {
    if pub in sent then sent[pub] else 0
  }

  // ---------- steps ----------

  datatype Step =
    | Subscribe(id: string, topic: string)
    | Unsubscribe(id: string, topic: string)
    | BeginPublish(pub: nat, topic: string, event: Event)
    | Send(pub: nat, ch: nat)
    | EndPublish(pub: nat)
    | Serve(ch: nat)
    | Finish(ch: nat)
    | Cancel(ch: nat)

  predicate Enabled(s: State, step: Step) {
    && !s.panicked
    && match step
       case Subscribe(_, _) => s.calls == map[]
       case Unsubscribe(_, _) => s.calls == map[]
       case BeginPublish(pub, _, _) => pub !in s.calls
       case Send(pub, ch) => pub in s.calls && ch in s.calls[pub].todo
       case EndPublish(pub) => pub in s.calls && s.calls[pub].todo == {}
       case Serve(ch) => ch < |s.subs| && s.subs[ch].server == Serving && s.subs[ch].ch.buf != []
       case Finish(ch) => ch < |s.subs| && s.subs[ch].server == Serving && s.subs[ch].ch == GoChan([], true)
       case Cancel(ch) => ch < |s.subs| && s.subs[ch].server == Serving
  }

  /** Closing a closed channel and sending on one panic. */
  function Apply(s: State, step: Step): State
    requires Enabled(s, step)
  {
    match step
    case Subscribe(id, topic) =>
      s.(clients := Enrol(s.clients, id, topic, |s.subs|), subs := s.subs + [NEW_SUB])
    case Unsubscribe(id, topic) =>
      if !IsClient(s.clients, topic, id) then s
      else
        var ch := s.clients[topic][id];
        if ch >= |s.subs| || s.subs[ch].ch.closed then s.(panicked := true)
        else s.(clients := Remove(s.clients, id, topic), subs := s.subs[ch := CloseSub(s.subs[ch])])
    case BeginPublish(pub, topic, event) =>
      var num, targets := Count(s.sent, pub), Targets(s.clients, topic);
      s.(calls := s.calls[pub := Call(topic, Msg(pub, num, event), targets, targets)], sent := s.sent[pub := num + 1])
    case Send(pub, ch) =>
      var call := s.calls[pub];
      if ch >= |s.subs| || s.subs[ch].ch.closed then s.(panicked := true)
      else s.(calls := s.calls[pub := call.(todo := call.todo - {ch})], subs := s.subs[ch := OfferTo(s.subs[ch], call.msg)])
    case EndPublish(pub) =>
      s.(calls := s.calls - {pub}, ended := s.ended + [s.calls[pub]])
    case Serve(ch) =>
      s.(subs := s.subs[ch := ServeOne(s.subs[ch])])
    case Finish(ch) =>
      var c := s.subs[ch];
      s.(subs := s.subs[ch := c.(wire := c.wire + DONE_TEXT, server := Finished)])
    case Cancel(ch) =>
      s.(subs := s.subs[ch := s.subs[ch].(server := Cancelled)])
  }

  function CloseSub(c: Sub): Sub {
    c.(ch := c.ch.(closed := true))
  }

  function OfferTo(c: Sub, msg: Msg): Sub {
    c.(ch := TrySend(c.ch, msg), offers := c.offers + [Offer(msg, |c.ch.buf|)])
  }

  /** One round of the handler: receive, print, and stop when the data does not marshal. */
  function ServeOne(c: Sub): Sub
    requires c.ch.buf != []
  {
    var m := c.ch.buf[0];
    var c' := c.(ch := c.ch.(buf := c.ch.buf[1..]), received := c.received + [m]);
    if m.event.json.Some? then c'.(wire := c.wire + Encode(m.event))
    else c'.(wire := c.wire + Head(m.event), server := Failed)
  }

  ghost predicate Next(s: State, s': State) {
    exists step :: Enabled(s, step) && s' == Apply(s, step)
  }

  ghost predicate IsRun(run: seq<State>) {
    && run != [] && run[0] == START
    && forall i | 0 <= i < |run| - 1 :: Next(run[i], run[i + 1])
  }

  // ---------- one subscription ----------

  /** The messages that entered the buffer, in order. */
  function Accepted(offers: seq<Offer>): seq<Msg> {
    if offers == [] then []
    else
      var last := offers[|offers| - 1];
      Accepted(offers[..|offers| - 1]) + if last.fill < CAPACITY then [last.msg] else []
  }

  function EventsOf(msgs: seq<Msg>): seq<Event> {
    seq(|msgs|, i requires 0 <= i < |msgs| => msgs[i].event)
  }

  /** The events written in full; when the handler failed, the last one received is not. */
  function Written(c: Sub): seq<Event> {
    if c.server == Failed && c.received != [] then EventsOf(c.received[..|c.received| - 1]) else EventsOf(c.received)
  }

  function EndingOf(c: Sub): Ending {
    if c.server == Finished then Closed
    else if c.server == Failed && c.received != [] then Broken(c.received[|c.received| - 1].event)
    else Open
  }

  /** What was accepted is what was received and what still waits. */
  ghost predicate BufferOk(c: Sub) {
    && |c.ch.buf| <= CAPACITY
    && (forall o <- c.offers :: o.fill <= CAPACITY)
    && Accepted(c.offers) == c.received + c.ch.buf
    && (c.server == Finished ==> c.ch.buf == [] && c.ch.closed)
  }

  /** What was written is what was received. */
  ghost predicate WireOk(c: Sub) {
    && AllMarshal(Written(c))
    && c.wire == EncodeAll(Written(c)) + EndingText(EndingOf(c))
    && (c.server == Failed ==> c.received != [] && c.received[|c.received| - 1].event.json.None?)
  }

  lemma OfferKeepsSub(c: Sub, msg: Msg)
    requires BufferOk(c) && WireOk(c) && !c.ch.closed
    ensures BufferOk(OfferTo(c, msg)) && WireOk(OfferTo(c, msg))
  {
    OfferKeepsBuffer(c, msg);
    OfferKeepsWire(c, msg);
  }

  lemma OfferKeepsBuffer(c: Sub, msg: Msg)
    requires BufferOk(c) && !c.ch.closed
    ensures BufferOk(OfferTo(c, msg))
  {
    AcceptedSnoc(c.offers, Offer(msg, |c.ch.buf|));
    assert c.received + c.ch.buf + [msg] == c.received + (c.ch.buf + [msg]);
  }

  lemma AcceptedSnoc(offers: seq<Offer>, o: Offer)
    ensures Accepted(offers + [o]) == Accepted(offers) + if o.fill < CAPACITY then [o.msg] else []
  {
    assert (offers + [o])[..|offers|] == offers;
  }

  lemma OfferKeepsWire(c: Sub, msg: Msg)
    requires WireOk(c)
    ensures WireOk(OfferTo(c, msg))
  {
    assert Written(OfferTo(c, msg)) == Written(c);
  }

  lemma ServeKeepsBuffer(c: Sub)
    requires BufferOk(c) && c.server == Serving && c.ch.buf != []
    ensures BufferOk(ServeOne(c))
  {
    assert c.ch.buf == [c.ch.buf[0]] + c.ch.buf[1..];
    assert c.received + c.ch.buf == c.received + [c.ch.buf[0]] + c.ch.buf[1..];
  }

  lemma ServeKeepsWire(c: Sub)
    requires WireOk(c) && c.server == Serving && c.ch.buf != []
    ensures WireOk(ServeOne(c))
  {
    ServingWire(c);
    if c.ch.buf[0].event.json.Some? {
      ServePrints(c);
    } else {
      ServeBreaks(c);
    }
  }

  lemma ServePrints(c: Sub)
    requires c.server == Serving && c.ch.buf != [] && c.ch.buf[0].event.json.Some?
    requires AllMarshal(EventsOf(c.received)) && c.wire == EncodeAll(EventsOf(c.received))
    ensures WireOk(ServeOne(c))
  {
    var c', m := ServeOne(c), c.ch.buf[0];
    EventsOfSnoc(c.received, m);
    EncodeAllAppend(EventsOf(c.received), m.event);
    ServingShape(c');
    assert c'.wire + "" == c'.wire;
  }

  lemma ServingShape(c: Sub)
    requires c.server == Serving
    ensures Written(c) == EventsOf(c.received) && EndingText(EndingOf(c)) == ""
  {
  }

  lemma ServeBreaks(c: Sub)
    requires c.server == Serving && c.ch.buf != [] && c.ch.buf[0].event.json.None?
    requires AllMarshal(EventsOf(c.received)) && c.wire == EncodeAll(EventsOf(c.received))
    ensures WireOk(ServeOne(c))
  {
    BrokenShape(ServeOne(c), c.received, c.ch.buf[0]);
  }

  lemma BrokenShape(c: Sub, before: seq<Msg>, m: Msg)
    requires c.server == Failed && c.received == before + [m]
    ensures Written(c) == EventsOf(before) && EndingText(EndingOf(c)) == Head(m.event)
    ensures c.received[|c.received| - 1] == m
  {
    assert c.received[..|c.received| - 1] == before;
  }

  /** Until the handler stops, the wire holds the received events. */
  lemma ServingWire(c: Sub)
    requires c.server == Serving && WireOk(c)
    ensures AllMarshal(EventsOf(c.received)) && c.wire == EncodeAll(EventsOf(c.received))
  {
    ServingShape(c);
    assert EncodeAll(Written(c)) + "" == EncodeAll(Written(c));
  }

  lemma EventsOfSnoc(msgs: seq<Msg>, m: Msg)
    ensures EventsOf(msgs + [m]) == EventsOf(msgs) + [m.event]
  {
  }

  lemma FinishKeepsSub(c: Sub)
    requires BufferOk(c) && WireOk(c) && c.server == Serving && c.ch == GoChan([], true)
    ensures var c' := c.(wire := c.wire + DONE_TEXT, server := Finished); BufferOk(c') && WireOk(c')
  {
    ServingWire(c);
  }

  // ---------- the invariant ----------

  ghost predicate HasOffer(c: Sub, m: Msg) {
    exists o <- c.offers :: o.msg == m
  }

  ghost predicate SubsOk(s: State) {
    forall c <- s.subs :: BufferOk(c) && WireOk(c)
  }

  /** Registered channels exist and are open. */
  ghost predicate RegistryOk(s: State) {
    && WellRegistered(s.clients, |s.subs|)
    && (forall t, i, ch: nat | Registered(s.clients, t, i, ch) :: !s.subs[ch].ch.closed)
  }

  /** While a publisher holds the read lock its targets stay the topic's registrations. */
  ghost predicate CallsOk(s: State) {
    forall pub <- s.calls ::
      var call := s.calls[pub];
      && call.msg.pub == pub && Count(s.sent, pub) == call.msg.num + 1
      && call.targets == Targets(s.clients, call.topic) && call.todo <= call.targets
  }

  ghost predicate EndedOk(s: State) {
    forall call <- s.ended ::
      && call.msg.num < Count(s.sent, call.msg.pub)
      && (call.msg.pub in s.calls ==> call.msg.num < s.calls[call.msg.pub].msg.num)
      && (forall ch <- call.targets :: ch < |s.subs|)
  }

  /** Sends of one publisher reach a channel in the order of that publisher's calls. */
  ghost predicate InOrder(offers: seq<Offer>) {
    forall i, j | 0 <= i < j < |offers| && offers[i].msg.pub == offers[j].msg.pub ::
      offers[i].msg.num < offers[j].msg.num
  }

  ghost predicate OffersOk(s: State) {
    forall c <- s.subs ::
      && InOrder(c.offers)
      && forall o <- c.offers ::
           && o.msg.num < Count(s.sent, o.msg.pub)
           && (o.msg.pub in s.calls ==> o.msg == s.calls[o.msg.pub].msg || o.msg.num < s.calls[o.msg.pub].msg.num)
  }

  /** A call has offered its event to exactly the targets it is through with. */
  ghost predicate FanOutOk(s: State) {
    EndedFanOut(s) && CallsFanOut(s)
  }

  ghost predicate EndedFanOut(s: State) {
    forall call <- s.ended, ch | 0 <= ch < |s.subs| :: HasOffer(s.subs[ch], call.msg) <==> ch in call.targets
  }

  ghost predicate CallsFanOut(s: State) {
    forall pub <- s.calls, ch | 0 <= ch < |s.subs| ::
      HasOffer(s.subs[ch], s.calls[pub].msg) <==> ch in s.calls[pub].targets - s.calls[pub].todo
  }

  ghost predicate Inv(s: State) {
    !s.panicked && SubsOk(s) && RegistryOk(s) && CallsOk(s) && EndedOk(s) && OffersOk(s) && FanOutOk(s)
  }

  // ---------- every step keeps it ----------

  lemma SubscribeKeeps(s: State, id: string, topic: string)
    requires Inv(s) && Enabled(s, Subscribe(id, topic))
    ensures Inv(Apply(s, Subscribe(id, topic)))
  {
    SubscribeSubs(s, id, topic);
    SubscribeCalls(s, id, topic);
    SubscribeOffers(s, id, topic);
    EnrolKeeps(s.clients, id, topic, |s.subs|);
  }

  lemma SubscribeSubs(s: State, id: string, topic: string)
    requires SubsOk(s)
    ensures SubsOk(s.(subs := s.subs + [NEW_SUB]))
  {
    forall c <- s.subs + [NEW_SUB] ensures c in s.subs || c == NEW_SUB {}
    assert EncodeAll(Written(NEW_SUB)) + EndingText(EndingOf(NEW_SUB)) == "";
  }

  lemma SubscribeCalls(s: State, id: string, topic: string)
    requires CallsOk(s) && EndedOk(s) && Enabled(s, Subscribe(id, topic))
    ensures CallsOk(Apply(s, Subscribe(id, topic))) && EndedOk(Apply(s, Subscribe(id, topic)))
  {
  }

  lemma SubscribeOffers(s: State, id: string, topic: string)
    requires CallsOk(s) && EndedOk(s) && OffersOk(s) && FanOutOk(s) && Enabled(s, Subscribe(id, topic))
    ensures OffersOk(Apply(s, Subscribe(id, topic))) && FanOutOk(Apply(s, Subscribe(id, topic)))
  {
    forall c <- s.subs + [NEW_SUB] ensures c in s.subs || c == NEW_SUB {}
  }

  lemma UnsubscribeKeeps(s: State, id: string, topic: string)
    requires Inv(s) && Enabled(s, Unsubscribe(id, topic))
    ensures Inv(Apply(s, Unsubscribe(id, topic)))
  {
    var s' := Apply(s, Unsubscribe(id, topic));
    if IsClient(s.clients, topic, id) {
      RemoveKeeps(s.clients, id, topic, |s.subs|);
      var ch := s.clients[topic][id];
      assert Registered(s.clients, topic, id, ch);
      SameHistories(s, s', ch);
    }
  }

  /** Replacing a subscription by one with the same history of offers keeps what is said of offers. */
  lemma SameHistories(s: State, s': State, ch: nat)
    requires OffersOk(s) && FanOutOk(s) && ch < |s.subs| == |s'.subs|
    requires s'.subs == s.subs[ch := s'.subs[ch]] && s'.subs[ch].offers == s.subs[ch].offers
    requires s'.calls == s.calls && s'.sent == s.sent && s'.ended == s.ended
    ensures OffersOk(s') && FanOutOk(s')
  {
    forall c <- s'.subs ensures exists c0 <- s.subs :: c0.offers == c.offers {
      var i :| 0 <= i < |s'.subs| && s'.subs[i] == c;
      assert s.subs[i] in s.subs && s.subs[i].offers == c.offers;
    }
    forall i, m | 0 <= i < |s.subs| ensures HasOffer(s'.subs[i], m) <==> HasOffer(s.subs[i], m) {}
  }

  lemma BeginPublishKeeps(s: State, pub: nat, topic: string, event: Event)
    requires Inv(s) && Enabled(s, BeginPublish(pub, topic, event))
    ensures Inv(Apply(s, BeginPublish(pub, topic, event)))
  {
    BeginPublishOffers(s, pub, topic, event);
    BeginPublishFanOut(s, pub, topic, event);
  }

  lemma BeginPublishOffers(s: State, pub: nat, topic: string, event: Event)
    requires OffersOk(s) && EndedOk(s) && Enabled(s, BeginPublish(pub, topic, event))
    ensures OffersOk(Apply(s, BeginPublish(pub, topic, event))) && EndedOk(Apply(s, BeginPublish(pub, topic, event)))
  {
    var s' := Apply(s, BeginPublish(pub, topic, event));
    assert forall p :: Count(s.sent, p) <= Count(s'.sent, p);
    forall c <- s'.subs, o <- c.offers
      ensures o.msg.num < Count(s'.sent, o.msg.pub)
      ensures o.msg.pub in s'.calls ==> o.msg == s'.calls[o.msg.pub].msg || o.msg.num < s'.calls[o.msg.pub].msg.num
    {
      assert c in s.subs;
    }
  }

  lemma BeginPublishFanOut(s: State, pub: nat, topic: string, event: Event)
    requires OffersOk(s) && FanOutOk(s) && Enabled(s, BeginPublish(pub, topic, event))
    ensures FanOutOk(Apply(s, BeginPublish(pub, topic, event)))
  {
    var s' := Apply(s, BeginPublish(pub, topic, event));
    var msg := s'.calls[pub].msg;
    forall ch | 0 <= ch < |s.subs| ensures !HasOffer(s.subs[ch], msg) {
      assert s.subs[ch] in s.subs;
    }
    forall p <- s'.calls, ch | 0 <= ch < |s'.subs|
      ensures HasOffer(s'.subs[ch], s'.calls[p].msg) <==> ch in s'.calls[p].targets - s'.calls[p].todo
    {
      if p != pub {
        assert p in s.calls;
      }
    }
  }

  lemma SendKeeps(s: State, pub: nat, ch: nat)
    requires Inv(s) && Enabled(s, Send(pub, ch))
    ensures Inv(Apply(s, Send(pub, ch)))
  {
    SendIsSafe(s, pub, ch);
    SendChannel(s, pub, ch);
    SendRegistry(s, pub, ch);
    SendCalls(s, pub, ch);
    SendEnded(s, pub, ch);
    SendOrder(s, pub, ch);
    SendFanOut(s, pub, ch);
  }

  lemma SendChannel(s: State, pub: nat, ch: nat)
    requires SubsOk(s) && Enabled(s, Send(pub, ch)) && ch < |s.subs| && !s.subs[ch].ch.closed
    ensures SubsOk(Apply(s, Send(pub, ch)))
  {
    var c := s.subs[ch];
    assert c in s.subs;
    OfferKeepsSub(c, s.calls[pub].msg);
  }

  lemma SendRegistry(s: State, pub: nat, ch: nat)
    requires RegistryOk(s) && Enabled(s, Send(pub, ch)) && ch < |s.subs| && !s.subs[ch].ch.closed
    ensures RegistryOk(Apply(s, Send(pub, ch)))
  {
  }

  lemma SendCalls(s: State, pub: nat, ch: nat)
    requires CallsOk(s) && Enabled(s, Send(pub, ch)) && ch < |s.subs| && !s.subs[ch].ch.closed
    ensures CallsOk(Apply(s, Send(pub, ch)))
  {
    assert Apply(s, Send(pub, ch)).calls.Keys == s.calls.Keys;
  }

  lemma SendEnded(s: State, pub: nat, ch: nat)
    requires EndedOk(s) && Enabled(s, Send(pub, ch)) && ch < |s.subs| && !s.subs[ch].ch.closed
    ensures EndedOk(Apply(s, Send(pub, ch)))
  {
    assert Apply(s, Send(pub, ch)).calls.Keys == s.calls.Keys;
  }

  /** No send hits a closed channel. */
  lemma SendIsSafe(s: State, pub: nat, ch: nat)
    requires RegistryOk(s) && CallsOk(s) && Enabled(s, Send(pub, ch))
    ensures ch < |s.subs| && !s.subs[ch].ch.closed
  {
    var call := s.calls[pub];
    TargetsAreRegistered(s.clients, call.topic);
    assert ch in call.targets;
    var i :| Registered(s.clients, call.topic, i, ch);
  }

  lemma SendOrder(s: State, pub: nat, ch: nat)
    requires RegistryOk(s) && CallsOk(s) && OffersOk(s) && FanOutOk(s) && Enabled(s, Send(pub, ch))
    ensures OffersOk(Apply(s, Send(pub, ch)))
  {
    SendIsSafe(s, pub, ch);
    var s', call := Apply(s, Send(pub, ch)), s.calls[pub];
    var c, c' := s.subs[ch], s'.subs[ch];
    assert c in s.subs;
    assert !HasOffer(c, call.msg);
    forall o <- c.offers | o.msg.pub == pub ensures o.msg.num < call.msg.num {}
    forall i, j | 0 <= i < j < |c'.offers| && c'.offers[i].msg.pub == c'.offers[j].msg.pub
      ensures c'.offers[i].msg.num < c'.offers[j].msg.num
    {
      assert c'.offers[i] == c.offers[i];
      assert c.offers[i] in c.offers;
    }
    forall d <- s'.subs ensures d in s.subs || d == c' {}
    forall p ensures p in s.calls <==> p in s'.calls {}
    forall p <- s.calls ensures s'.calls[p].msg == s.calls[p].msg {}
  }

  lemma OfferAdds(c: Sub, msg: Msg, m: Msg)
    ensures HasOffer(OfferTo(c, msg), m) <==> HasOffer(c, m) || m == msg
  {
    var o := Offer(msg, |c.ch.buf|);
    assert OfferTo(c, msg).offers == c.offers + [o];
    assert o in OfferTo(c, msg).offers;
  }

  /** A send adds one offer, on one channel. */
  lemma SendOffers(s: State, pub: nat, ch: nat)
    requires Enabled(s, Send(pub, ch)) && ch < |s.subs| && !s.subs[ch].ch.closed
    ensures var s', msg := Apply(s, Send(pub, ch)), s.calls[pub].msg;
            && |s'.subs| == |s.subs| && s'.ended == s.ended && s'.calls.Keys == s.calls.Keys
            && forall i, m | 0 <= i < |s.subs| ::
                 HasOffer(s'.subs[i], m) <==> HasOffer(s.subs[i], m) || (i == ch && m == msg)
  {
    var s', msg := Apply(s, Send(pub, ch)), s.calls[pub].msg;
    forall i, m | 0 <= i < |s.subs|
      ensures HasOffer(s'.subs[i], m) <==> HasOffer(s.subs[i], m) || (i == ch && m == msg)
    {
      OfferAdds(s.subs[ch], msg, m);
    }
  }

  lemma SendFanOut(s: State, pub: nat, ch: nat)
    requires RegistryOk(s) && CallsOk(s) && EndedOk(s) && FanOutOk(s) && Enabled(s, Send(pub, ch))
    ensures FanOutOk(Apply(s, Send(pub, ch)))
  {
    SendIsSafe(s, pub, ch);
    SendEndedFanOut(s, pub, ch);
    SendCallsFanOut(s, pub, ch);
  }

  lemma SendEndedFanOut(s: State, pub: nat, ch: nat)
    requires EndedOk(s) && EndedFanOut(s)
    requires Enabled(s, Send(pub, ch)) && ch < |s.subs| && !s.subs[ch].ch.closed && s.calls[pub].msg.pub == pub
    ensures EndedFanOut(Apply(s, Send(pub, ch)))
  {
    SendOffers(s, pub, ch);
    forall call <- s.ended ensures call.msg != s.calls[pub].msg {}
  }

  lemma SendCallsFanOut(s: State, pub: nat, ch: nat)
    requires CallsOk(s) && CallsFanOut(s)
    requires Enabled(s, Send(pub, ch)) && ch < |s.subs| && !s.subs[ch].ch.closed
    ensures CallsFanOut(Apply(s, Send(pub, ch)))
  {
    SendOffers(s, pub, ch);
    SendTargets(s, pub, ch);
    var s' := Apply(s, Send(pub, ch));
    forall p <- s'.calls, i | 0 <= i < |s'.subs|
      ensures HasOffer(s'.subs[i], s'.calls[p].msg) <==> i in s'.calls[p].targets - s'.calls[p].todo
    {
      assert HasOffer(s.subs[i], s.calls[p].msg) <==> i in s.calls[p].targets - s.calls[p].todo;
    }
  }

  /** ... and takes the channel off the publisher's list. */
  lemma SendTargets(s: State, pub: nat, ch: nat)
    requires CallsOk(s) && Enabled(s, Send(pub, ch)) && ch < |s.subs| && !s.subs[ch].ch.closed
    ensures var s' := Apply(s, Send(pub, ch));
            forall p <- s.calls ::
              && p in s'.calls && s'.calls[p].msg == s.calls[p].msg && s'.calls[p].targets == s.calls[p].targets
              && s'.calls[p].todo == (if p == pub then s.calls[p].todo - {ch} else s.calls[p].todo)
              && (p != pub ==> s.calls[p].msg != s.calls[pub].msg)
  {
  }

  lemma EndPublishKeeps(s: State, pub: nat)
    requires Inv(s) && Enabled(s, EndPublish(pub))
    ensures Inv(Apply(s, EndPublish(pub)))
  {
    var s', call := Apply(s, EndPublish(pub)), s.calls[pub];
    forall c <- s'.ended ensures c in s.ended || c == call {}
    assert EndedOk(s') by {
      TargetsAreRegistered(s.clients, call.topic);
    }
    assert CallsOk(s');
    assert OffersOk(s') by {
      forall c <- s'.subs, o <- c.offers
        ensures o.msg.num < Count(s'.sent, o.msg.pub)
        ensures o.msg.pub in s'.calls ==> o.msg == s'.calls[o.msg.pub].msg || o.msg.num < s'.calls[o.msg.pub].msg.num
      {
        assert c in s.subs;
      }
    }
    assert FanOutOk(s');
  }

  /** A handler's step changes one subscription, and no offer. */
  lemma HandlerKeeps(s: State, ch: nat, c': Sub)
    requires Inv(s) && ch < |s.subs|
    requires BufferOk(c') && WireOk(c')
    requires c'.offers == s.subs[ch].offers && c'.ch.closed == s.subs[ch].ch.closed
    ensures Inv(s.(subs := s.subs[ch := c']))
  {
    var s' := s.(subs := s.subs[ch := c']);
    forall c <- s'.subs ensures c in s.subs || c == c' {}
    HandlerLeavesCalls(s, s', ch);
    SameHistories(s, s', ch);
  }

  lemma HandlerLeavesCalls(s: State, s': State, ch: nat)
    requires RegistryOk(s) && CallsOk(s) && EndedOk(s) && ch < |s.subs|
    requires ch < |s'.subs| && s' == s.(subs := s.subs[ch := s'.subs[ch]])
    requires s'.subs[ch].ch.closed == s.subs[ch].ch.closed
    ensures RegistryOk(s') && CallsOk(s') && EndedOk(s')
  {
  }

  lemma StepKeeps(s: State, step: Step)
    requires Inv(s) && Enabled(s, step)
    ensures Inv(Apply(s, step))
  {
    match step
    case Subscribe(id, topic) => SubscribeKeeps(s, id, topic);
    case Unsubscribe(id, topic) => UnsubscribeKeeps(s, id, topic);
    case BeginPublish(pub, topic, event) => BeginPublishKeeps(s, pub, topic, event);
    case Send(pub, ch) => SendKeeps(s, pub, ch);
    case EndPublish(pub) => EndPublishKeeps(s, pub);
    case Serve(ch) =>
      assert s.subs[ch] in s.subs;
      ServeKeepsBuffer(s.subs[ch]);
      ServeKeepsWire(s.subs[ch]);
      HandlerKeeps(s, ch, ServeOne(s.subs[ch]));
    case Finish(ch) =>
      assert s.subs[ch] in s.subs;
      FinishKeepsSub(s.subs[ch]);
      HandlerKeeps(s, ch, s.subs[ch].(wire := s.subs[ch].wire + DONE_TEXT, server := Finished));
    case Cancel(ch) =>
      assert s.subs[ch] in s.subs;
      CancelKeepsSub(s.subs[ch]);
      HandlerKeeps(s, ch, s.subs[ch].(server := Cancelled));
  }

  lemma CancelKeepsSub(c: Sub)
    requires BufferOk(c) && WireOk(c) && c.server == Serving
    ensures BufferOk(c.(server := Cancelled)) && WireOk(c.(server := Cancelled))
  {
  }

  /** The invariant holds in every state of every run. */
  lemma {:induction false} RunKeeps(run: seq<State>, i: nat)
    requires IsRun(run) && i < |run|
    ensures Inv(run[i])
  {
    if i > 0 {
      RunKeeps(run, i - 1);
      assert Next(run[i - 1], run[i - 1 + 1]);
      var step :| Enabled(run[i - 1], step) && run[i] == Apply(run[i - 1], step);
      StepKeeps(run[i - 1], step);
    }
  }

  // ---------- what follows for every run ----------

  /**
   Safety: no send hits a closed channel, none is closed twice, no buffer ever holds more than
   32 events, and a publisher's targets stay what is registered for as long as it publishes.
   */
  lemma HubSafety(run: seq<State>, i: nat)
    requires IsRun(run) && i < |run|
    ensures !run[i].panicked
    ensures forall c <- run[i].subs :: |c.ch.buf| <= 32
    ensures forall pub <- run[i].calls ::
              run[i].calls[pub].targets == Targets(run[i].clients, run[i].calls[pub].topic)
    ensures forall pub, ch: nat | Enabled(run[i], Send(pub, ch)) :: ch < |run[i].subs| && !run[i].subs[ch].ch.closed
  {
    RunKeeps(run, i);
    forall pub, ch: nat | Enabled(run[i], Send(pub, ch)) ensures ch < |run[i].subs| && !run[i].subs[ch].ch.closed {
      SendIsSafe(run[i], pub, ch);
    }
  }

  lemma {:induction false} AcceptedIff(offers: seq<Offer>, m: Msg)
    ensures m in Accepted(offers) <==> exists o <- offers :: o.msg == m && o.fill < CAPACITY
  {
    if offers != [] {
      var init, last := offers[..|offers| - 1], offers[|offers| - 1];
      AcceptedIff(init, m);
      assert offers == init + [last];
    }
  }

  lemma {:induction false} AcceptedInOrder(offers: seq<Offer>)
    requires InOrder(offers)
    ensures forall i, j | 0 <= i < j < |Accepted(offers)| && Accepted(offers)[i].pub == Accepted(offers)[j].pub ::
              Accepted(offers)[i].num < Accepted(offers)[j].num
  {
    if offers != [] {
      var init, last := offers[..|offers| - 1], offers[|offers| - 1];
      AcceptedInOrder(init);
      forall m <- Accepted(init) | m.pub == last.msg.pub ensures m.num < last.msg.num {
        AcceptedIff(init, m);
        var o :| o in init && o.msg == m;
        var k :| 0 <= k < |init| && init[k] == o;
        assert offers[k] == o;
      }
    }
  }

  /**
   Delivery: a finished publication was offered to exactly the channels registered when it
   took the lock; such a channel took the event unless its buffer was full at that send.
   What a channel has taken is what its handler received followed by what waits, and the
   events of one publisher are in the order of its calls.
   */
  lemma HubDelivery(run: seq<State>, i: nat, call: Call, ch: nat)
    requires IsRun(run) && i < |run| && call in run[i].ended && ch < |run[i].subs|
    ensures var c := run[i].subs[ch];
            && (HasOffer(c, call.msg) <==> ch in call.targets)
            && (ch in call.targets && call.msg !in Accepted(c.offers) ==>
                  exists o <- c.offers :: o.msg == call.msg && o.fill == 32)
            && (call.msg in Accepted(c.offers) ==> ch in call.targets)
            && Accepted(c.offers) == c.received + c.ch.buf
            && InOrder(c.offers)
            && (forall j, k | 0 <= j < k < |Accepted(c.offers)| && Accepted(c.offers)[j].pub == Accepted(c.offers)[k].pub ::
                  Accepted(c.offers)[j].num < Accepted(c.offers)[k].num)
  {
    RunKeeps(run, i);
    var c := run[i].subs[ch];
    assert c in run[i].subs;
    AcceptedIff(c.offers, call.msg);
    AcceptedInOrder(c.offers);
    if ch in call.targets && call.msg !in Accepted(c.offers) {
      var o :| o in c.offers && o.msg == call.msg;
      assert o.fill == 32;
    }
  }
}
