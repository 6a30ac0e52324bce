/**
 Distributed locks: a token under a key that expires, over a timed key store.

 Times are whole milliseconds.  Of Redis this assumes: a key set with a time to live exists
 until that time has passed, `SET NX` succeeds exactly when the key does not exist, scripts
 are atomic, and a time to live that is not positive deletes the key (`PEXPIRE`) or is refused
 (`SET`), except that zero asks `SET` for no expiry.
 */
module Locks {
  import opened Wrappers

  /** A stored token; `None` never expires. */
  datatype Entry = Entry(token: string, deadline: Option<int>)

  datatype Store = Store(entries: map<string, Entry>, now: int)

  /** A lock a client holds or held: the full key and the token written under it. */
  datatype Handle = Handle(key: string, token: string)

  predicate Exists(s: Store, key: string) {
    key in s.entries && (s.entries[key].deadline.Some? ==> s.now < s.entries[key].deadline.value)
  }

  /** `GET key == token`, the test both scripts start with. */
  predicate Owns(s: Store, h: Handle) {
    Exists(s, h.key) && s.entries[h.key].token == h.token
  }

  function LockKey(key: string): string {
    "bzy:lock:" + key
  }

  datatype AcquireResult = Acquired(lock: Handle) | NotAcquired | StoreError

  /** A lost reply is an error for the caller, with the token stored if the key was free. */
  function Acquire(s: Store, key: string, token: string, ttl: int, fault: Fault): (AcquireResult, Store) {
    var k := LockKey(key);
    if fault == NotSent || ttl < 0 then (StoreError, s)
    else if Exists(s, k) then (if fault == ReplyLost then StoreError else NotAcquired, s)
    else (if fault == ReplyLost then StoreError else Acquired(Handle(k, token)),
          s.(entries := s.entries[k := Entry(token, if ttl == 0 then None else Some(s.now + ttl))]))
  }

  function Release(s: Store, h: Handle): Store {
    if Owns(s, h) then s.(entries := s.entries - {h.key}) else s
  }

  function Extend(s: Store, h: Handle, ttl: int): Store {
    if !Owns(s, h) then s
    else if ttl <= 0 then s.(entries := s.entries - {h.key})
    else s.(entries := s.entries[h.key := Entry(h.token, Some(s.now + ttl))])
  }

  function Tick(s: Store, d: nat): Store {
    s.(now := s.now + d)
  }

  // ---------- the code ----------

  /** The client's view: every call is one atomic command or script on the shared store. */
  class RedisLocker {
    var store: Store

    constructor ()
      ensures store == Store(map[], 0)
    {
      store := Store(map[], 0);
    }

    /** `SET key token NX PX ttl`. */
    method SetNX(key: string, token: string, ttl: int, fault: Fault) returns (r: Result<bool, ()>)
      modifies this
      ensures var free := !Exists(old(store), key);
              && r == (if fault != NoFault || ttl < 0 then Err(()) else Ok(free))
              && store == if fault != NotSent && ttl >= 0 && free
                          then old(store).(entries := old(store).entries[key :=
                                 Entry(token, if ttl == 0 then None else Some(old(store).now + ttl))])
                          else old(store)
    {
      if fault == NotSent || ttl < 0 {
        return Err(());
      }
      var free := !Exists(store, key);
      if free {
        store := store.(entries := store.entries[key := Entry(token, if ttl == 0 then None else Some(store.now + ttl))]);
      }
      return if fault == ReplyLost then Err(()) else Ok(free);
    }

    /** `Acquire`; `token` is the generated UUID. */
    method AcquireLock(key: string, token: string, ttl: int, fault: Fault) returns (r: AcquireResult)
      modifies this
      ensures var k, free := "bzy:lock:" + key, !Exists(old(store), "bzy:lock:" + key);
              && r == (if fault != NoFault || ttl < 0 then StoreError
                       else if free then Acquired(Handle(k, token)) else NotAcquired)
              && store.now == old(store).now
              && store.entries == if fault != NotSent && ttl >= 0 && free
                                  then old(store).entries[k := Entry(token, if ttl == 0 then None
                                                                            else Some(old(store).now + ttl))]
                                  else old(store).entries
      ensures (r, store) == Acquire(old(store), key, token, ttl, fault)
    {
      var lockKey := LockKey(key);
      var ok := SetNX(lockKey, token, ttl, fault);
      if ok.Err? {
        return StoreError;
      }
      if !ok.value {
        return NotAcquired;
      }
      return Acquired(Handle(lockKey, token));
    }

    method ReleaseLock(h: Handle, fault: Fault) returns (ok: bool)
      modifies this
      ensures ok <==> fault == NoFault
      ensures store.now == old(store).now
      ensures store.entries == if fault != NotSent && Exists(old(store), h.key)
                                  && old(store).entries[h.key].token == h.token
                               then old(store).entries - {h.key} else old(store).entries
      ensures store == if fault == NotSent then old(store) else Release(old(store), h)
    {
      if fault != NotSent && Exists(store, h.key) && store.entries[h.key].token == h.token {
        store := store.(entries := store.entries - {h.key});
      }
      return fault == NoFault;
    }

    method ExtendLock(h: Handle, ttl: int, fault: Fault) returns (ok: bool)
      modifies this
      ensures ok <==> fault == NoFault
      ensures store.now == old(store).now
      ensures store.entries == if fault != NotSent && Exists(old(store), h.key)
                                  && old(store).entries[h.key].token == h.token
                               then if ttl <= 0 then old(store).entries - {h.key}
                                    else old(store).entries[h.key := Entry(h.token, Some(old(store).now + ttl))]
                               else old(store).entries
      ensures store == if fault == NotSent then old(store) else Extend(old(store), h, ttl)
    {
      if fault != NotSent && Exists(store, h.key) && store.entries[h.key].token == h.token {
        if ttl <= 0 {
          store := store.(entries := store.entries - {h.key});
        } else {
          store := store.(entries := store.entries[h.key := store.entries[h.key].(deadline := Some(store.now + ttl))]);
        }
      }
      return fault == NoFault;
    }
  }

  // ---------- runs ----------

  /**
   The shared store, the handles that callers got, and all that were ever stored, among them those
   whose reply was lost; every process and the clock may step.
   */
  datatype State = State(store: Store, issued: set<Handle>, stored: set<Handle>)

  /** A release or extension that does not arrive is no step; one whose reply is lost is like any other. */
  datatype Step =
    | DoAcquire(key: string, token: string, ttl: int, fault: Fault)
    | DoRelease(h: Handle)
    | DoExtend(h: Handle, ttl: int)
    | DoTick(d: nat)

  /** Tokens are fresh; only handles that were given out can be released or extended. */
  predicate Enabled(s: State, step: Step) {
    match step
    case DoAcquire(_, token, _, _) => forall h <- s.stored :: h.token != token
    case DoRelease(h) => h in s.issued
    case DoExtend(h, _) => h in s.issued
    case DoTick(_) => true
  }

  function Apply(s: State, step: Step): State {
    match step
    case DoAcquire(key, token, ttl, fault) =>
      var (r, store) := Acquire(s.store, key, token, ttl, fault);
      State(store, if r.Acquired? then s.issued + {r.lock} else s.issued,
            if store != s.store then s.stored + {Handle(LockKey(key), token)} else s.stored)
    case DoRelease(h) => s.(store := Release(s.store, h))
    case DoExtend(h, ttl) => s.(store := Extend(s.store, h, ttl))
    case DoTick(d) => s.(store := Tick(s.store, d))
  }

  /** A run: `states[i + 1]` comes from `states[i]` by `steps[i]`. */
  ghost predicate IsRun(states: seq<State>, steps: seq<Step>) {
    && |states| == |steps| + 1
    && states[0] == State(Store(map[], 0), {}, {})
    && forall i | 0 <= i < |steps| :: Enabled(states[i], steps[i]) && states[i + 1] == Apply(states[i], steps[i])
  }

  /** Callers have what was stored; tokens identify handles. */
  ghost predicate Inv(s: State) {
    && s.issued <= s.stored
    && (forall k <- s.store.entries :: Handle(k, s.store.entries[k].token) in s.stored)
    && (forall g <- s.stored, h <- s.stored | g.token == h.token :: g == h)
  }

  lemma StepKeeps(s: State, step: Step)
    requires Inv(s) && Enabled(s, step)
    ensures Inv(Apply(s, step))
  {
  }

  lemma {:induction false} RunKeeps(states: seq<State>, steps: seq<Step>, i: nat)
    requires IsRun(states, steps) && i < |states|
    ensures Inv(states[i])
  {
    if i > 0 {
      RunKeeps(states, steps, i - 1);
      assert states[i - 1 + 1] == Apply(states[i - 1], steps[i - 1]);
      StepKeeps(states[i - 1], steps[i - 1]);
    }
  }

  lemma StepAt(states: seq<State>, steps: seq<Step>, i: nat)
    requires IsRun(states, steps) && i < |steps|
    ensures |states| == |steps| + 1 && Inv(states[i])
    ensures Enabled(states[i], steps[i]) && states[i + 1] == Apply(states[i], steps[i])
  {
    RunKeeps(states, steps, i);
  }

  // ---------- mutual exclusion ----------

  /** A step by anyone but the owner leaves the owner alone; nobody regains what is lost. */
  lemma OneStep(s: State, step: Step, h: Handle)
    requires Inv(s) && Enabled(s, step) && h in s.stored
    ensures h in Apply(s, step).stored
    ensures !Owns(s.store, h) ==> !Owns(Apply(s, step).store, h)
  {
  }

  lemma {:induction false} NeverAgain(states: seq<State>, steps: seq<Step>, h: Handle, i: nat, j: nat)
    requires IsRun(states, steps) && i <= j < |states|
    requires h in states[i].stored && !Owns(states[i].store, h)
    ensures h in states[j].stored && !Owns(states[j].store, h)
    decreases j
  {
    if i < j {
      NeverAgain(states, steps, h, i, j - 1);
      StepAt(states, steps, j - 1);
      OneStep(states[j - 1], steps[j - 1], h);
    }
  }

  lemma {:induction false} OwnersAreStored(states: seq<State>, steps: seq<Step>, h: Handle, i: nat)
    requires IsRun(states, steps) && i < |states| && Owns(states[i].store, h)
    ensures h in states[i].stored
  {
    RunKeeps(states, steps, i);
  }

  /**
   The times at which a handle owns its key form one interval, and the intervals of two
   handles on one key do not meet.
   */
  lemma OwnershipIsAnInterval(states: seq<State>, steps: seq<Step>, h: Handle, i: nat, j: nat, k: nat)
    requires IsRun(states, steps) && i <= j <= k < |states|
    requires Owns(states[i].store, h) && Owns(states[k].store, h)
    ensures Owns(states[j].store, h)
    ensures forall g: Handle | g.key == h.key && g != h :: !Owns(states[j].store, g)
  {
    OwnersAreStored(states, steps, h, i);
    StoredStays(states, steps, h, i, j);
    if !Owns(states[j].store, h) {
      NeverAgain(states, steps, h, j, k);
      assert false;
    }
  }

  lemma {:induction false} StoredStays(states: seq<State>, steps: seq<Step>, h: Handle, i: nat, j: nat)
    requires IsRun(states, steps) && i <= j < |states| && h in states[i].stored
    ensures h in states[j].stored
    decreases j
  {
    if i < j {
      StoredStays(states, steps, h, i, j - 1);
      assert states[j - 1 + 1] == Apply(states[j - 1], steps[j - 1]);
    }
  }

  /** Who takes a key over does so after the previous owner has lost it for good. */
  lemma TakeoverIsFinal(states: seq<State>, steps: seq<Step>, g: Handle, h: Handle, i: nat, j: nat, k: nat)
    requires IsRun(states, steps) && i < j <= k < |states| && g.key == h.key && g != h
    requires Owns(states[i].store, g) && Owns(states[j].store, h)
    ensures !Owns(states[k].store, g)
  {
    if Owns(states[k].store, g) {
      OwnershipIsAnInterval(states, steps, g, i, j, k);
      assert false;
    }
  }

  // ---------- a lock lasts as long as it was granted ----------

  /** `h` itself is neither released nor extended by `steps[i..j]`. */
  ghost predicate LeftAlone(steps: seq<Step>, h: Handle, i: nat, j: nat)
    requires i <= j <= |steps|
  {
    forall k | i <= k < j :: !(steps[k].DoRelease? && steps[k].h == h) && !(steps[k].DoExtend? && steps[k].h == h)
  }

  /**
   Until its owner releases or extends it, a lock is owned exactly until its deadline: nobody
   else can end it earlier, and nothing keeps it longer.
   */
  lemma {:induction false} OwnedUntilDeadline(states: seq<State>, steps: seq<Step>, h: Handle, i: nat, j: nat)
    requires IsRun(states, steps) && i <= j < |states| && Owns(states[i].store, h)
    requires LeftAlone(steps, h, i, j)
    ensures var deadline := states[i].store.entries[h.key].deadline;
            && (Owns(states[j].store, h) <==> deadline.None? || states[j].store.now < deadline.value)
            && (Owns(states[j].store, h) ==> states[j].store.entries[h.key].deadline == deadline)
            && states[i].store.now <= states[j].store.now
    decreases j
  {
    OwnersAreStored(states, steps, h, i);
    if i < j {
      OwnedUntilDeadline(states, steps, h, i, j - 1);
      StepAt(states, steps, j - 1);
      StoredStays(states, steps, h, i, j - 1);
      OneStep(states[j - 1], steps[j - 1], h);
      if Owns(states[j - 1].store, h) {
        OwnerUndisturbed(states[j - 1], steps[j - 1], h);
      }
    }
  }

  lemma OwnerUndisturbed(s: State, step: Step, h: Handle)
    requires Inv(s) && Enabled(s, step) && Owns(s.store, h) && h in s.stored
    requires !(step.DoRelease? && step.h == h) && !(step.DoExtend? && step.h == h)
    ensures var s' := Apply(s, step);
            && h.key in s'.store.entries && s'.store.entries[h.key] == s.store.entries[h.key]
            && s.store.now <= s'.store.now
  {
  }

  // ---------- what each step brings about ----------

  /** Nothing is stored under the key, or what is has expired. */
  predicate IsFree(s: Store, key: string) {
    key in s.entries ==> s.entries[key].deadline.Some? && s.entries[key].deadline.value <= s.now
  }

  /** The stored entry, if there is one and it has not expired, is this token's. */
  predicate IsHeldBy(s: Store, h: Handle) {
    !IsFree(s, h.key) && s.entries[h.key].token == h.token
  }

  /** Every other key's entry is as before, and so is the clock. */
  predicate OnlyAt(s: Store, s': Store, key: string) {
    s'.now == s.now && s'.entries - {key} == s.entries - {key}
  }

  /** With this token, time to live and a working network the lock of that name is acquired. */
  predicate Gets(s: Store, name: string, token: string, ttl: int) {
    var (r, after) := Acquire(s, name, token, ttl, NoFault);
    r == Acquired(Handle(LockKey(name), token)) && IsHeldBy(after, r.lock)
  }

  ghost predicate AnyoneGets(s: Store, key: string) {
    forall name, token, ttl | LockKey(name) == key && ttl > 0 :: Gets(s, name, token, ttl)
  }

  /** Locks of different names have different keys. */
  lemma NamesAreSeparate(a: string, b: string)
    ensures LockKey(a) == LockKey(b) <==> a == b
  {
    assert LockKey(a)[9..] == a && LockKey(b)[9..] == b;
  }

  /**
   A release through the handle that holds the key frees it, touches nothing else, and is for good; the
   next acquisition of the key gets it.  Through any other handle it changes nothing.
   */
  lemma ReleaseFrees(states: seq<State>, steps: seq<Step>, h: Handle, i: nat)
    requires IsRun(states, steps) && i < |steps| && steps[i] == DoRelease(h)
    ensures var s, s' := states[i].store, states[i + 1].store;
            if IsHeldBy(s, h) then h.key !in s'.entries && OnlyAt(s, s', h.key) else s' == s
    ensures forall j | i < j < |states| :: !IsHeldBy(states[j].store, h)
    ensures IsHeldBy(states[i].store, h) ==> AnyoneGets(states[i + 1].store, h.key)
  {
    StepAt(states, steps, i);
    forall j | i < j < |states| ensures !IsHeldBy(states[j].store, h) {
      StoredStays(states, steps, h, i, i + 1);
      NeverAgain(states, steps, h, i + 1, j);
    }
  }

  /** An extension through the holder moves the deadline, or ends the lock when it is not positive. */
  lemma ExtensionMoves(states: seq<State>, steps: seq<Step>, h: Handle, ttl: int, i: nat)
    requires IsRun(states, steps) && i < |steps| && steps[i] == DoExtend(h, ttl)
    ensures var s, s' := states[i].store, states[i + 1].store;
            && OnlyAt(s, s', h.key)
            && (!IsHeldBy(s, h) ==> s' == s)
            && (IsHeldBy(s, h) && ttl > 0 ==>
                  h.key in s'.entries && s'.entries[h.key] == Entry(h.token, Some(s.now + ttl)))
            && (IsHeldBy(s, h) && ttl <= 0 ==> h.key !in s'.entries)
  {
    StepAt(states, steps, i);
  }

  /** Time alone frees a key, at its deadline, and then anyone can have it. */
  lemma ExpiryFrees(states: seq<State>, steps: seq<Step>, h: Handle, d: nat, i: nat)
    requires IsRun(states, steps) && i < |steps| && steps[i] == DoTick(d) && IsHeldBy(states[i].store, h)
    ensures var s, s' := states[i].store, states[i + 1].store;
            var deadline := s.entries[h.key].deadline;
            && s'.now == s.now + d && s'.entries == s.entries
            && (IsHeldBy(s', h) <==> deadline.None? || s.now + d < deadline.value)
            && (!IsHeldBy(s', h) ==> AnyoneGets(s', h.key))
  {
    StepAt(states, steps, i);
  }

  /** An acquisition gets the key exactly when it is free and the network and the time to live allow it. */
  lemma AcquisitionStores(states: seq<State>, steps: seq<Step>, key: string, token: string, ttl: int, fault: Fault, i: nat)
    requires IsRun(states, steps) && i < |steps| && steps[i] == DoAcquire(key, token, ttl, fault)
    ensures var s, s', h := states[i], states[i + 1], Handle(LockKey(key), token);
            && OnlyAt(s.store, s'.store, h.key)
            && (IsHeldBy(s'.store, h) <==> IsFree(s.store, h.key) && ttl >= 0 && fault != NotSent)
            && (IsHeldBy(s'.store, h) ==>
                  s'.store.entries[h.key].deadline == if ttl == 0 then None else Some(s.store.now + ttl))
            && (!IsHeldBy(s'.store, h) ==> s'.store == s.store)
            && (h in s'.issued <==> IsHeldBy(s'.store, h) && fault == NoFault)
            && s'.issued - {h} == s.issued
  {
    StepAt(states, steps, i);
  }

  /** A lock is taken, kept by an extension past its first deadline, given back, and taken by somebody else. */
  lemma LockCycle(name: string, a: string, b: string, ttl: int) returns (states: seq<State>, steps: seq<Step>)
    requires a != b && ttl > 1
    ensures IsRun(states, steps) && |states| == 7
    ensures var first, second := Handle(LockKey(name), a), Handle(LockKey(name), b);
            && steps == [DoAcquire(name, a, ttl, NoFault), DoTick(ttl - 1), DoExtend(first, ttl), DoTick(ttl - 1),
                         DoRelease(first), DoAcquire(name, b, ttl, NoFault)]
            && (forall i | 1 <= i <= 4 :: IsHeldBy(states[i].store, first))
            && IsFree(states[5].store, LockKey(name))
            && IsHeldBy(states[6].store, second) && !IsHeldBy(states[6].store, first)
  {
    var first := Handle(LockKey(name), a);
    steps := [DoAcquire(name, a, ttl, NoFault), DoTick(ttl - 1), DoExtend(first, ttl), DoTick(ttl - 1),
              DoRelease(first), DoAcquire(name, b, ttl, NoFault)];
    var s0 := State(Store(map[], 0), {}, {});
    var s1 := Apply(s0, steps[0]);
    var s2 := Apply(s1, steps[1]);
    var s3 := Apply(s2, steps[2]);
    var s4 := Apply(s3, steps[3]);
    var s5 := Apply(s4, steps[4]);
    states := [s0, s1, s2, s3, s4, s5, Apply(s5, steps[5])];
  }

  /** Nobody has the handle, and its token was stored: the reply to its acquisition was lost. */
  ghost predicate IsOrphan(s: State, h: Handle) {
    h in s.stored && h !in s.issued
  }

  lemma OrphanStep(s: State, step: Step, h: Handle)
    requires Inv(s) && Enabled(s, step) && IsOrphan(s, h)
    ensures IsOrphan(Apply(s, step), h)
    ensures !(step.DoRelease? && step.h == h) && !(step.DoExtend? && step.h == h)
  {
  }

  lemma {:induction false} OrphansStay(states: seq<State>, steps: seq<Step>, h: Handle, i: nat, j: nat)
    requires IsRun(states, steps) && i <= j < |states| && IsOrphan(states[i], h)
    ensures IsOrphan(states[j], h) && LeftAlone(steps, h, i, j)
    decreases j
  {
    if i < j {
      OrphansStay(states, steps, h, i, j - 1);
      StepAt(states, steps, j - 1);
      OrphanStep(states[j - 1], steps[j - 1], h);
    }
  }

  /**
   A lock whose reply was lost belongs to nobody and locks everybody out: its key is taken exactly
   until the deadline, for ever if it has none.
   */
  lemma OrphanBlocksUntilDeadline(states: seq<State>, steps: seq<Step>, h: Handle, i: nat, j: nat)
    requires IsRun(states, steps) && i <= j < |states| && IsOrphan(states[i], h) && Owns(states[i].store, h)
    ensures var s, deadline := states[j], states[i].store.entries[h.key].deadline;
            && IsOrphan(s, h)
            && (Owns(s.store, h) <==> deadline.None? || s.store.now < deadline.value)
            && (Owns(s.store, h) ==> forall key, token, ttl, fault | LockKey(key) == h.key ::
                  !Acquire(s.store, key, token, ttl, fault).0.Acquired?)
  {
    OrphansStay(states, steps, h, i, j);
    OwnedUntilDeadline(states, steps, h, i, j);
  }

  /** What acquiring and extending grant: ownership with a deadline `ttl` from now. */
  lemma Granted(s: Store, key: string, token: string, ttl: int)
    requires ttl > 0
    ensures var (r, s') := Acquire(s, key, token, ttl, NoFault);
            if Exists(s, LockKey(key)) then r == NotAcquired && s' == s
            else r.Acquired? && Owns(s', r.lock) && s'.entries[r.lock.key].deadline == Some(s.now + ttl)
    ensures forall h | Owns(s, h) ::
              Owns(Extend(s, h, ttl), h) && Extend(s, h, ttl).entries[h.key].deadline == Some(s.now + ttl)
  {
  }
}
