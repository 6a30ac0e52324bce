/**
 The embedding service: a cache in front of a provider.  The cache is a key store that may lose any
 entry before a read (expiry, a failed read, an undecodable value) and may refuse any write; the
 provider embeds each text by itself and may be unavailable.
 */
module Embedding {

  import opened Wrappers

  /** What the service depends on: the digest in the cache keys and the provider's embedding. */
  datatype Model<!V> = Model(digest: string -> string, embed: string -> V) {

    function Key(text: string): string {
      "embed:" + digest(text)
    }

    /** Two texts share a cache entry exactly when they share their digest. */
    lemma KeysAreDigests(s: string, t: string)
      ensures "embed:" <= Key(s) && Key(s)[6..] == digest(s)
      ensures Key(s) == Key(t) <==> digest(s) == digest(t)
    {
      assert Key(s)[6..] == digest(s) && Key(t)[6..] == digest(t);
    }

    /** Equal digests only where the embeddings are equal, among the texts in `known`. */
    ghost predicate CollisionsAreHarmless(known: set<string>) {
      forall s, t :: s in known && t in known && digest(s) == digest(t) ==> embed(s) == embed(t)
    }

    /** What the cache holds for a known text is that text's embedding. */
    ghost predicate IsCorrect(cache: map<string, V>, known: set<string>) {
      forall t :: t in known && Key(t) in cache ==> cache[Key(t)] == embed(t)
    }
  }

  /**
   One call of `Embed`, with the positions whose cache read finds nothing although there is an entry,
   the positions whose cache write fails, and whether the provider fails.
   */
  datatype Call = Call(texts: seq<string>, lost: set<nat>, unwritten: set<nat>, down: bool) {

    predicate Hit<V>(m: Model<V>, cache: map<string, V>, i: nat)
      requires i < |texts|
    {
      m.Key(texts[i]) in cache && i !in lost
    }

    /** The positions below `k` that the cache does not answer, in order. */
    function Missing<V>(m: Model<V>, cache: map<string, V>, k: nat): seq<nat>
      requires k <= |texts|
    {
      if k == 0 then []
      else Missing(m, cache, k - 1) + if Hit(m, cache, k - 1) then [] else [k - 1]
    }

    ghost predicate Positions(missing: seq<nat>) {
      forall j | 0 <= j < |missing| :: missing[j] < |texts|
    }

    /** The texts at those positions, in order: what the provider is asked for. */
    function MissingTexts<V>(m: Model<V>, cache: map<string, V>, k: nat): seq<string>
      requires k <= |texts|
    {
      if k == 0 then []
      else MissingTexts(m, cache, k - 1) + if Hit(m, cache, k - 1) then [] else [texts[k - 1]]
    }

    /** What the provider is sent: the missed texts in one batch, or nothing. */
    function Batches<V>(m: Model<V>, cache: map<string, V>): seq<seq<string>> {
      var missed := MissingTexts(m, cache, |texts|);
      if missed == [] then [] else [missed]
    }

    /** The cache after the writes for the first `j` missing positions. */
    function Written<V>(m: Model<V>, cache: map<string, V>, missing: seq<nat>, j: nat): map<string, V>
      requires Positions(missing) && j <= |missing|
    {
      if j == 0 then cache
      else
        var before := Written(m, cache, missing, j - 1);
        var i := missing[j - 1];
        if i in unwritten then before else before[m.Key(texts[i]) := m.embed(texts[i])]
    }

    /** The value the call returns at position `i`. */
    function Answer<V>(m: Model<V>, cache: map<string, V>, i: nat): V
      requires i < |texts|
    {
      if Hit(m, cache, i) then cache[m.Key(texts[i])] else m.embed(texts[i])
    }

    /** The call fails: something is missing and the provider is down. */
    predicate Fails<V>(m: Model<V>, cache: map<string, V>) {
      down && Missing(m, cache, |texts|) != []
    }

    function FirstAnswers<V>(m: Model<V>, cache: map<string, V>, k: nat): seq<V>
      requires k <= |texts|
    {
      if k == 0 then [] else FirstAnswers(m, cache, k - 1) + [Answer(m, cache, k - 1)]
    }

    function Answers<V>(m: Model<V>, cache: map<string, V>): Option<seq<V>> {
      if Fails(m, cache) then None else Some(FirstAnswers(m, cache, |texts|))
    }

    lemma {:induction false} FirstAnswersAre<V>(m: Model<V>, cache: map<string, V>, k: nat)
      requires k <= |texts|
      ensures var r := FirstAnswers(m, cache, k);
              |r| == k && forall i | 0 <= i < k :: r[i] == Answer(m, cache, i)
    {
      if k > 0 {
        FirstAnswersAre(m, cache, k - 1);
      }
    }

    ghost function CacheAfter<V>(m: Model<V>, cache: map<string, V>): map<string, V> {
      MissingIsExact(m, cache, |texts|);
      var missing := Missing(m, cache, |texts|);
      if Fails(m, cache) then cache else Written(m, cache, missing, |missing|)
    }

    ghost predicate Increases(missing: seq<nat>) {
      forall i, j | 0 <= i < j < |missing| :: missing[i] < missing[j]
    }

    ghost predicate AreMisses<V>(m: Model<V>, cache: map<string, V>, k: nat, missing: seq<nat>)
      requires k <= |texts|
    {
      && (forall j | 0 <= j < |missing| :: missing[j] < k && !Hit(m, cache, missing[j]))
      && (forall i: nat | i < k && !Hit(m, cache, i) :: i in missing)
    }

    /** The missing positions are exactly those without a hit, each once, in order. */
    lemma {:induction false} MissingIsExact<V>(m: Model<V>, cache: map<string, V>, k: nat)
      requires k <= |texts|
      ensures var missing := Missing(m, cache, k); AreMisses(m, cache, k, missing) && Increases(missing)
    {
      if k > 0 {
        MissingIsExact(m, cache, k - 1);
        MissingStep(m, cache, k);
        MissingAdds(m, cache, k, Missing(m, cache, k - 1), Missing(m, cache, k));
      }
    }

    lemma MissingStep<V>(m: Model<V>, cache: map<string, V>, k: nat)
      requires 0 < k <= |texts|
      ensures Missing(m, cache, k) == Missing(m, cache, k - 1) + if Hit(m, cache, k - 1) then [] else [k - 1]
    {
    }

    lemma MissingAdds<V>(m: Model<V>, cache: map<string, V>, k: nat, before: seq<nat>, now: seq<nat>)
      requires 0 < k <= |texts| && AreMisses(m, cache, k - 1, before) && Increases(before)
      requires now == before + if Hit(m, cache, k - 1) then [] else [k - 1]
      ensures AreMisses(m, cache, k, now) && Increases(now)
    {
      if !Hit(m, cache, k - 1) {
        assert now[|before|] == k - 1;
      } else {
        assert now == before;
      }
    }

    lemma {:induction false} MissingTextsAreThere<V>(m: Model<V>, cache: map<string, V>, k: nat)
      requires k <= |texts|
      ensures var missing, sent := Missing(m, cache, k), MissingTexts(m, cache, k);
              |missing| == |sent| && forall j | 0 <= j < |missing| :: missing[j] < k && sent[j] == texts[missing[j]]
    {
      if k > 0 {
        MissingTextsAreThere(m, cache, k - 1);
      }
    }

    /** The hits are in place. */
    ghost predicate AreHits<V>(m: Model<V>, cache: map<string, V>, found: seq<V>) {
      |found| == |texts| && forall i: nat | i < |texts| && Hit(m, cache, i) :: found[i] == Answer(m, cache, i)
    }

    lemma MissesInOrder<V>(m: Model<V>, cache: map<string, V>, missing: seq<nat>)
      requires missing == Missing(m, cache, |texts|)
      ensures Positions(missing) && Increases(missing)
      ensures forall j | 0 <= j < |missing| :: !Hit(m, cache, missing[j])
    {
      MissingIsExact(m, cache, |texts|);
    }

    /** The hits as they were found and the misses as they were embedded: every position has its answer. */
    lemma FilledIsAnswer<V>(m: Model<V>, cache: map<string, V>, missing: seq<nat>, out: seq<V>)
      requires |out| == |texts| && missing == Missing(m, cache, |texts|) && Positions(missing) && !Fails(m, cache)
      requires forall i: nat | i < |texts| && Hit(m, cache, i) :: out[i] == Answer(m, cache, i)
      requires forall j | 0 <= j < |missing| :: out[missing[j]] == m.embed(texts[missing[j]])
      ensures Answers(m, cache) == Some(out)
    {
      MissingIsExact(m, cache, |texts|);
      forall i: nat | i < |texts| ensures out[i] == Answer(m, cache, i) {
        if !Hit(m, cache, i) {
          assert i in missing;
        }
      }
      FirstAnswersAre(m, cache, |texts|);
      assert out == FirstAnswers(m, cache, |texts|);
    }

    lemma WhenAllHit<V>(m: Model<V>, cache: map<string, V>, out: seq<V>)
      requires AreHits(m, cache, out) && Missing(m, cache, |texts|) == []
      ensures Answers(m, cache) == Some(out) && CacheAfter(m, cache) == cache && Batches(m, cache) == []
    {
      FilledIsAnswer(m, cache, [], out);
      MissingTextsAreThere(m, cache, |texts|);
    }

    lemma WhenDown<V>(m: Model<V>, cache: map<string, V>)
      requires down && Missing(m, cache, |texts|) != []
      ensures Answers(m, cache) == None && CacheAfter(m, cache) == cache
      ensures Batches(m, cache) == [MissingTexts(m, cache, |texts|)]
    {
      MissingTextsAreThere(m, cache, |texts|);
    }

    lemma WhenFilled<V>(m: Model<V>, cache: map<string, V>, missing: seq<nat>, found: seq<V>, vecs: seq<V>)
      requires missing == Missing(m, cache, |texts|) && Positions(missing) && missing != [] && !down
      requires AreHits(m, cache, found) && |vecs| == |missing|
      requires forall j | 0 <= j < |missing| :: vecs[j] == m.embed(texts[missing[j]])
      ensures Answers(m, cache) == Some(Put(found, missing, vecs, |missing|))
      ensures CacheAfter(m, cache) == Written(m, cache, missing, |missing|)
      ensures Batches(m, cache) == [MissingTexts(m, cache, |texts|)]
    {
      MissesInOrder(m, cache, missing);
      PutIs(found, missing, vecs, |missing|);
      FilledIsAnswer(m, cache, missing, Put(found, missing, vecs, |missing|));
      MissingTextsAreThere(m, cache, |texts|);
    }

    /** A call that succeeds returns what the provider alone would. */
    ghost predicate Transparent<V>(m: Model<V>, cache: map<string, V>) {
      match Answers(m, cache)
      case None => true
      case Some(r) => |r| == |texts| && forall i | 0 <= i < |texts| :: r[i] == m.embed(texts[i])
    }

    /** With a correct cache, every answer is the provider's. */
    lemma AnswersAreTheProviders<V>(m: Model<V>, cache: map<string, V>, known: set<string>)
      requires m.IsCorrect(cache, known)
      requires forall t <- texts :: t in known
      ensures Transparent(m, cache)
    {
      FirstAnswersAre(m, cache, |texts|);
      forall i: nat | i < |texts| ensures Answer(m, cache, i) == m.embed(texts[i]) {
        assert texts[i] in known;
      }
    }

    lemma AnswerEach<V>(m: Model<V>, cache: map<string, V>)
      ensures var r := Answers(m, cache); r.Some? ==> |r.value| == |texts|
    {
      FirstAnswersAre(m, cache, |texts|);
    }

    lemma {:induction false} WrittenStaysCorrect<V>(m: Model<V>, cache: map<string, V>, missing: seq<nat>, j: nat,
                                                    known: set<string>)
      requires Positions(missing) && j <= |missing|
      requires m.IsCorrect(cache, known) && m.CollisionsAreHarmless(known)
      requires forall t <- texts :: t in known
      ensures m.IsCorrect(Written(m, cache, missing, j), known)
    {
      if j > 0 {
        WrittenStaysCorrect(m, cache, missing, j - 1, known);
        var written := texts[missing[j - 1]];
        assert written in known;
        forall t | t in known && m.Key(t) == m.Key(written) ensures m.embed(t) == m.embed(written) {
          m.KeysAreDigests(t, written);
        }
      }
    }

    /** Every call keeps the cache correct. */
    lemma CacheStaysCorrect<V>(m: Model<V>, cache: map<string, V>, known: set<string>)
      requires m.IsCorrect(cache, known) && m.CollisionsAreHarmless(known)
      requires forall t <- texts :: t in known
      ensures m.IsCorrect(CacheAfter(m, cache), known)
    {
      MissingIsExact(m, cache, |texts|);
      var missing := Missing(m, cache, |texts|);
      WrittenStaysCorrect(m, cache, missing, |missing|, known);
    }

    lemma {:induction false} WrittenHolds<V>(m: Model<V>, cache: map<string, V>, missing: seq<nat>, j: nat)
      requires Positions(missing) && j <= |missing|
      ensures forall key <- cache :: key in Written(m, cache, missing, j)
      ensures forall i | 0 <= i < j && missing[i] !in unwritten ::
                m.Key(texts[missing[i]]) in Written(m, cache, missing, j)
    {
      if j > 0 {
        WrittenHolds(m, cache, missing, j - 1);
      }
    }

    /** The cache after a call has what it had, and an entry for each text that was missing and could be written. */
    lemma {:induction false} WrittenIff<V>(m: Model<V>, cache: map<string, V>, missing: seq<nat>, j: nat, key: string)
      requires Positions(missing) && j <= |missing|
      ensures key in Written(m, cache, missing, j) <==>
                key in cache || exists k :: 0 <= k < j && missing[k] !in unwritten && m.Key(texts[missing[k]]) == key
    {
      if j > 0 {
        WrittenIff(m, cache, missing, j - 1, key);
      }
    }

    /** Position `i` finds its text's entry, and the read of it succeeds. */
    ghost predicate Finds<V>(m: Model<V>, cache: map<string, V>, i: nat) {
      i < |texts| && m.Key(texts[i]) in cache && i !in lost
    }

    /** Position `i` has to be embedded, and its vector is written under this key. */
    ghost predicate Writes<V>(m: Model<V>, cache: map<string, V>, i: nat, key: string) {
      i < |texts| && !Finds(m, cache, i) && i !in unwritten && m.Key(texts[i]) == key
    }

    /**
     What a call leaves in the cache: when it fails, what was there; otherwise also an entry for exactly the
     texts that missed and whose write went through.
     */
    lemma CacheHoldsIff<V>(m: Model<V>, cache: map<string, V>, key: string)
      ensures Fails(m, cache) ==> CacheAfter(m, cache) == cache
      ensures !Fails(m, cache) ==>
                (key in CacheAfter(m, cache) <==> key in cache || exists i: nat :: Writes(m, cache, i, key))
    {
      var missing := Missing(m, cache, |texts|);
      MissingIsExact(m, cache, |texts|);
      WrittenIff(m, cache, missing, |missing|, key);
      forall i: nat | Writes(m, cache, i, key) ensures exists k :: 0 <= k < |missing| && missing[k] == i {
        assert i in missing;
      }
      forall k | 0 <= k < |missing| && missing[k] !in unwritten && m.Key(texts[missing[k]]) == key
        ensures Writes(m, cache, missing[k], key)
      {
        assert !Hit(m, cache, missing[k]);
      }
    }

    /** With the provider down a call succeeds, asking nobody, exactly when the cache answers every position. */
    lemma OutageShowsIff<V>(m: Model<V>, cache: map<string, V>)
      requires down
      ensures Answers(m, cache).Some? <==> forall i: nat | i < |texts| :: Finds(m, cache, i)
      ensures Answers(m, cache).Some? ==> Batches(m, cache) == []
      ensures Answers(m, cache).None? ==> |Batches(m, cache)| == 1
      ensures CacheAfter(m, cache) == cache
    {
      MissingIsExact(m, cache, |texts|);
      MissingTextsAreThere(m, cache, |texts|);
      if forall i: nat | i < |texts| :: Finds(m, cache, i) {
        forall i: nat | i < |texts| ensures Hit(m, cache, i) {
          assert Finds(m, cache, i);
        }
        NothingMissing(m, cache, |texts|);
      } else {
        var i: nat :| i < |texts| && !Finds(m, cache, i);
        assert !Hit(m, cache, i);
        assert i in Missing(m, cache, |texts|);
      }
    }

    lemma {:induction false} NothingMissing<V>(m: Model<V>, cache: map<string, V>, k: nat)
      requires k <= |texts| && forall i: nat | i < k :: Hit(m, cache, i)
      ensures Missing(m, cache, k) == []
    {
      if k > 0 {
        NothingMissing(m, cache, k - 1);
      }
    }

    /** What was embedded and written is not sent again: a second call that loses nothing misses nothing. */
    lemma SecondCallIsFree<V>(m: Model<V>, cache: map<string, V>, again: Call)
      requires !Fails(m, cache) && unwritten == {}
      requires (forall t <- again.texts :: t in texts) && again.lost == {}
      ensures again.Missing(m, CacheAfter(m, cache), |again.texts|) == []
    {
      var missing, next := Missing(m, cache, |texts|), CacheAfter(m, cache);
      MissingIsExact(m, cache, |texts|);
      WrittenHolds(m, cache, missing, |missing|);
      again.MissingIsExact(m, next, |again.texts|);
      forall k: nat | k < |again.texts| ensures again.Hit(m, next, k) {
        assert again.texts[k] in texts;
        var i: nat :| i < |texts| && texts[i] == again.texts[k];
        assert i in missing || m.Key(texts[i]) in cache;
      }
      again.NothingMissing(m, next, |again.texts|);
    }
  }

  /** `found` with the first `j` new vectors put at their positions. */
  function Put<V>(found: seq<V>, positions: seq<nat>, vecs: seq<V>, j: nat): seq<V>
    requires j <= |positions| == |vecs|
  {
    if j == 0 then found
    else
      var before := Put(found, positions, vecs, j - 1);
      if positions[j - 1] < |before| then before[positions[j - 1] := vecs[j - 1]] else before
  }

  lemma {:induction false} PutIs<V>(found: seq<V>, positions: seq<nat>, vecs: seq<V>, j: nat)
    requires j <= |positions| == |vecs| && forall k | 0 <= k < |positions| :: positions[k] < |found|
    requires forall k, l | 0 <= k < l < |positions| :: positions[k] < positions[l]
    ensures var r := Put(found, positions, vecs, j);
            && |r| == |found|
            && (forall k | 0 <= k < j :: r[positions[k]] == vecs[k])
            && (forall i | 0 <= i < |found| && (forall k | 0 <= k < j :: positions[k] != i) :: r[i] == found[i])
  {
    if j > 0 {
      PutIs(found, positions, vecs, j - 1);
    }
  }

  // ---------- whole histories ----------

  /** The cache after a list of calls. */
  ghost function CacheAfterAll<V>(m: Model<V>, cache: map<string, V>, calls: seq<Call>): map<string, V>
    decreases calls
  {
    if calls == [] then cache else CacheAfterAll(m, calls[0].CacheAfter(m, cache), calls[1..])
  }

  /** Every call of the history that succeeds returns the provider's answers. */
  ghost predicate AllTransparent<V>(m: Model<V>, cache: map<string, V>, calls: seq<Call>)
    decreases calls
  {
    calls != [] ==>
      calls[0].Transparent(m, cache) && AllTransparent(m, calls[0].CacheAfter(m, cache), calls[1..])
  }

  ghost predicate Over(calls: seq<Call>, known: set<string>) {
    forall c <- calls, t <- c.texts :: t in known
  }

  lemma {:induction false} HistoryIsTransparent<V>(m: Model<V>, cache: map<string, V>, calls: seq<Call>,
                                                   known: set<string>)
    requires m.IsCorrect(cache, known) && m.CollisionsAreHarmless(known) && Over(calls, known)
    ensures AllTransparent(m, cache, calls)
    ensures m.IsCorrect(CacheAfterAll(m, cache, calls), known)
    decreases calls
  {
    if calls != [] {
      assert calls[0] in calls;
      calls[0].AnswersAreTheProviders(m, cache, known);
      calls[0].CacheStaysCorrect(m, cache, known);
      HistoryIsTransparent(m, calls[0].CacheAfter(m, cache), calls[1..], known);
    }
  }

  /** Two texts with one key and different embeddings: the second is answered with the first's. */
  lemma HarmfulCollisionShows<V>(m: Model<V>, s: string, t: string)
    requires m.digest(s) == m.digest(t) && m.embed(s) != m.embed(t)
    ensures !AllTransparent(m, map[], [Call([s], {}, {}, false), Call([t], {}, {}, false)])
  {
    m.KeysAreDigests(s, t);
    var first, second := Call([s], {}, {}, false), Call([t], {}, {}, false);
    assert first.Missing(m, map[], 1) == first.Missing(m, map[], 0) + [0] == [0];
    assert first.Written(m, map[], [0], 1) == first.Written(m, map[], [0], 0)[m.Key(s) := m.embed(s)];
    var cache := first.CacheAfter(m, map[]);
    assert cache == map[m.Key(s) := m.embed(s)];
    assert second.Hit(m, cache, 0);
    assert second.FirstAnswers(m, cache, 1) == second.FirstAnswers(m, cache, 0) + [m.embed(s)];
    assert !second.Transparent(m, cache);
    assert [first, second][1..] == [second];
    assert AllTransparent(m, cache, [second]) ==> second.Transparent(m, cache);
  }

  /** The cache is invisible in every history over `known` exactly when collisions in `known` are harmless. */
  lemma CacheIsTransparentIff<V>(m: Model<V>, known: set<string>)
    ensures m.CollisionsAreHarmless(known) <==>
              (forall calls | Over(calls, known) :: AllTransparent(m, map[], calls))
  {
    if m.CollisionsAreHarmless(known) {
      forall calls | Over(calls, known) ensures AllTransparent(m, map[], calls) {
        HistoryIsTransparent(m, map[], calls, known);
      }
    } else {
      var s, t :| s in known && t in known && m.digest(s) == m.digest(t) && m.embed(s) != m.embed(t);
      m.KeysAreDigests(s, t);
      var calls := [Call([s], {}, {}, false), Call([t], {}, {}, false)];
      HarmfulCollisionShows(m, s, t);
      assert Over(calls, known);
    }
  }

  // ---------- the service ----------

  /** The provider, with the batches it was sent. */
  class Provider<V> {
    var batches: seq<seq<string>>

    constructor ()
      ensures batches == []
    {
      batches := [];
    }

    method Embed(m: Model<V>, texts: seq<string>, down: bool) returns (vecs: Option<seq<V>>)
      modifies this
      ensures batches == old(batches) + [texts]
      ensures vecs.None? <==> down
      ensures vecs.Some? ==> |vecs.value| == |texts|
      ensures vecs.Some? ==> forall j | 0 <= j < |texts| :: vecs.value[j] == m.embed(texts[j])
    {
      batches := batches + [texts];
      if down {
        return None;
      }
      var out := [];
      for j := 0 to |texts|
        invariant |out| == j && batches == old(batches) + [texts]
        invariant forall i | 0 <= i < j :: out[i] == m.embed(texts[i])
      {
        out := out + [m.embed(texts[j])];
      }
      return Some(out);
    }
  }

  class Service<V(0)> {
    const provider: Provider<V>
    const m: Model<V>
    var cache: map<string, V>

    constructor (provider: Provider<V>, m: Model<V>)
      ensures this.provider == provider && this.m == m && cache == map[]
    {
      this.provider, this.m, cache := provider, m, map[];
    }

    /** The first loop of `Embed`: the cached vectors, and what is missing. */
    method Look(call: Call) returns (results: array<V>, missing: seq<nat>, missingTexts: seq<string>)
      ensures fresh(results) && results.Length == |call.texts|
      ensures missing == call.Missing(m, cache, |call.texts|)
      ensures missingTexts == call.MissingTexts(m, cache, |call.texts|)
      ensures call.AreHits(m, cache, results[..])
    {
      var texts := call.texts;
      results := new V[|texts|];
      missing, missingTexts := [], [];
      for i := 0 to |texts|
        invariant missing == call.Missing(m, cache, i)
        invariant missingTexts == call.MissingTexts(m, cache, i)
        invariant forall k: nat | k < i :: call.Hit(m, cache, k) ==> results[k] == call.Answer(m, cache, k)
      {
        if call.Hit(m, cache, i) {
          results[i] := cache[m.Key(texts[i])];
        } else {
          missing := missing + [i];
          missingTexts := missingTexts + [texts[i]];
        }
      }
    }

    /** The second loop of `Embed`: store the new vectors in the result and in the cache. */
    method Fill(call: Call, results: array<V>, missing: seq<nat>, vecs: seq<V>)
      requires results.Length == |call.texts| && |vecs| == |missing| && call.Positions(missing)
      requires forall j | 0 <= j < |missing| :: vecs[j] == m.embed(call.texts[missing[j]])
      modifies `cache, results
      ensures cache == call.Written(m, old(cache), missing, |missing|)
      ensures results[..] == Put(old(results[..]), missing, vecs, |missing|)
    {
      for j := 0 to |missing|
        invariant cache == call.Written(m, old(cache), missing, j)
        invariant results[..] == Put(old(results[..]), missing, vecs, j)
      {
        var idx := missing[j];
        results[idx] := vecs[j];
        if idx !in call.unwritten {
          cache := cache[m.Key(call.texts[idx]) := vecs[j]];
        }
      }
    }

    method Embed(call: Call) returns (r: Option<seq<V>>)
      modifies this, provider
      ensures r == call.Answers(m, old(cache))
      ensures cache == call.CacheAfter(m, old(cache))
      ensures provider.batches == old(provider.batches) + call.Batches(m, old(cache))
    {
      var results, missing, missingTexts := Look(call);
      ghost var found := results[..];
      call.MissingTextsAreThere(m, cache, |call.texts|);
      if missingTexts == [] {
        call.WhenAllHit(m, cache, results[..]);
        assert provider.batches + [] == provider.batches;
        return Some(results[..]);
      }
      var vecs := provider.Embed(m, missingTexts, call.down);
      if vecs.None? {
        call.WhenDown(m, cache);
        return None;
      }
      Fill(call, results, missing, vecs.value);
      call.WhenFilled(m, old(cache), missing, found, vecs.value);
      return Some(results[..]);
    }
  }
}
