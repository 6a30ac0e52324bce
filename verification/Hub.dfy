/**
 The hub as code.  Go channels live in a table and are referred to by their position in it, so
 that a channel outlives its registration; `clients` is the two-level map of the source.  How
 concurrent calls interleave is the subject of `HubSteps`, which uses the same operations.
 */
module Hub {
  const CAPACITY := 32

  /** A buffered channel; its receiver may lag behind, it may be closed. */
  datatype GoChan<T> = GoChan(buf: seq<T>, closed: bool)

  /** `select { case ch <- x: default: }`: a full buffer drops the newcomer and keeps what it has. */
  function TrySend<T>(ch: GoChan<T>, x: T): GoChan<T> {
    if |ch.buf| < CAPACITY then ch.(buf := ch.buf + [x]) else ch
  }

  type Clients = map<string, map<string, nat>>

  predicate IsClient(clients: Clients, topic: string, id: string) {
    topic in clients && id in clients[topic]
  }

  /** The channels registered under a topic. */
  function Targets(clients: Clients, topic: string): set<nat> {
    if topic in clients then clients[topic].Values else {}
  }

  function Enrol(clients: Clients, id: string, topic: string, ch: nat): Clients {
    clients[topic := (if topic in clients then clients[topic] else map[])[id := ch]]
  }

  function Remove(clients: Clients, id: string, topic: string): Clients
    requires IsClient(clients, topic, id)
  {
    clients[topic := clients[topic] - {id}]
  }

  /** Client `id` of the topic is registered with channel `ch`. */
  predicate Registered(clients: Clients, topic: string, id: string, ch: nat) {
    topic in clients && id in clients[topic] && clients[topic][id] == ch
  }

  /** Registrations point at channels below `n`, and no channel is registered twice. */
  ghost predicate WellRegistered(clients: Clients, n: nat) {
    && (forall t, i, ch: nat | Registered(clients, t, i, ch) :: ch < n)
    && (forall t1, i1, t2, i2, ch: nat | Registered(clients, t1, i1, ch) && Registered(clients, t2, i2, ch) ::
          t1 == t2 && i1 == i2)
  }

  lemma TargetsAreRegistered(clients: Clients, topic: string)
    ensures forall ch: nat :: ch in Targets(clients, topic) <==> exists i :: Registered(clients, topic, i, ch)
  {
    forall ch: nat | ch in Targets(clients, topic) ensures exists i :: Registered(clients, topic, i, ch) {
      var i :| i in clients[topic] && clients[topic][i] == ch;
      assert Registered(clients, topic, i, ch);
    }
  }

  lemma EnrolKeeps(clients: Clients, id: string, topic: string, n: nat)
    requires WellRegistered(clients, n)
    ensures forall t, i, ch: nat :: Registered(Enrol(clients, id, topic, n), t, i, ch) <==>
                                 if t == topic && i == id then ch == n else Registered(clients, t, i, ch)
    ensures WellRegistered(Enrol(clients, id, topic, n), n + 1)
  {
    var after := Enrol(clients, id, topic, n);
    forall t, i, ch: nat
      ensures Registered(after, t, i, ch) <==> if t == topic && i == id then ch == n else Registered(clients, t, i, ch)
    {
      if t != topic {
        assert t in after <==> t in clients;
      }
    }
  }

  lemma RemoveKeeps(clients: Clients, id: string, topic: string, n: nat)
    requires WellRegistered(clients, n) && IsClient(clients, topic, id)
    ensures forall t, i, ch: nat :: Registered(Remove(clients, id, topic), t, i, ch) <==>
                                 Registered(clients, t, i, ch) && !(t == topic && i == id)
    ensures WellRegistered(Remove(clients, id, topic), n)
  {
    var after := Remove(clients, id, topic);
    forall t, i, ch: nat
      ensures Registered(after, t, i, ch) <==> Registered(clients, t, i, ch) && !(t == topic && i == id)
    {
      if t != topic {
        assert t in after <==> t in clients;
      }
    }
  }

  class Hub<T> {
    var clients: Clients
    var chans: seq<GoChan<T>>

    /** Registered channels are open and within capacity. */
    ghost predicate Valid()
      reads this
    {
      && WellRegistered(clients, |chans|)
      && (forall t, i, ch: nat | Registered(clients, t, i, ch) :: !chans[ch].closed)
      && (forall ch <- chans :: |ch.buf| <= CAPACITY)
    }

    constructor ()
      ensures Valid() && clients == map[] && chans == []
    {
      clients, chans := map[], [];
    }

    /** A client ID that subscribes again replaces its entry; the old channel stays as it is, open. */
    method Subscribe(clientID: string, topic: string) returns (ch: nat)
      requires Valid()
      modifies this
      ensures Valid()
      ensures ch == |old(chans)| && chans == old(chans) + [GoChan([], false)]
      ensures forall t, i, c: nat :: Registered(clients, t, i, c) <==>
                if t == topic && i == clientID then c == ch else Registered(old(clients), t, i, c)
      ensures clients == Enrol(old(clients), clientID, topic, ch)
    {
      ch := |chans|;
      EnrolKeeps(clients, clientID, topic, ch);
      chans := chans + [GoChan([], false)];
      if topic !in clients {
        clients := clients[topic := map[]];
      }
      var ofTopic: map<string, nat> := clients[topic][clientID := ch];
      clients := clients[topic := ofTopic];
      assert clients == Enrol(old(clients), clientID, topic, ch);
    }

    /** Closes and removes the registered channel, which is open; without one, nothing happens. */
    method Unsubscribe(clientID: string, topic: string)
      requires Valid()
      modifies this
      ensures Valid()
      ensures if IsClient(old(clients), topic, clientID) then
                var ch := old(clients)[topic][clientID];
                && ch < |old(chans)|
                && !old(chans)[ch].closed
                && chans == old(chans)[ch := old(chans)[ch].(closed := true)]
                && (forall t, i, c: nat :: Registered(clients, t, i, c) <==>
                      Registered(old(clients), t, i, c) && !(t == topic && i == clientID))
                && clients == Remove(old(clients), clientID, topic)
              else clients == old(clients) && chans == old(chans)
    {
      if topic in clients && clientID in clients[topic] {
        RemoveKeeps(clients, clientID, topic, |chans|);
        var ch := clients[topic][clientID];
        assert Registered(clients, topic, clientID, ch);
        chans := chans[ch := chans[ch].(closed := true)];
        clients := clients[topic := clients[topic] - {clientID}];
      }
    }

    /**
     Every channel of the topic, open as the send needs it, is offered the event exactly once,
     in whatever order the map yields the clients; no other channel is touched.
     */
    method Publish(topic: string, event: T)
      requires Valid()
      modifies this`chans
      ensures Valid()
      ensures |chans| == |old(chans)|
      ensures forall ch | 0 <= ch < |chans| ::
                var before := old(chans)[ch];
                && chans[ch].closed == before.closed
                && chans[ch].buf == if (exists i :: Registered(clients, topic, i, ch)) && |before.buf| < 32
                                    then before.buf + [event] else before.buf
    {
      ghost var before := chans;
      if topic in clients {
        var todo := clients[topic].Keys;
        TargetsAreRegistered(clients, topic);
        while todo != {}
          invariant todo <= clients[topic].Keys
          invariant |chans| == |before| && Valid()
          invariant forall i, ch: nat | Registered(clients, topic, i, ch) ::
                      chans[ch] == if i in todo then before[ch] else TrySend(before[ch], event)
          invariant forall ch | 0 <= ch < |chans| && ch !in Targets(clients, topic) :: chans[ch] == before[ch]
          decreases |todo|
        {
          var id :| id in todo;
          var ch := clients[topic][id];
          assert Registered(clients, topic, id, ch);
          chans := chans[ch := TrySend(chans[ch], event)];
          todo := todo - {id};
        }
      }
    }
  }
}
