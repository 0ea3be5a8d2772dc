/** Runs of the idempotency protocol which show that its guarantees cannot be stated more strongly. */
module IdempotencyLimits {
  import opened IdempotencyKeys
  import opened Recorder
  import opened IdempotencyProtocol
  import opened IdempotencyRuns

  /** No command to Redis fails, nothing expires and no handler panics. */
  predicate Faultless(events: seq<Event>) {
    forall e :: e in events ==> WithoutFault(e)
  }

  predicate WithoutFault(e: Event) {
    match e
    case Arrive(_, _, _, _) => true
    case Get(_, ok) => ok
    case Lock(_, fault) => fault == Fine
    case Handle(_, result) => result.Returned?
    case Put(_, fault) => fault == Fine
    case Unlock(_, fault) => fault == Fine
    case Expire(_) => false
  }

  lemma FaultlessTogether(a: seq<Event>, b: seq<Event>)
    requires Faultless(a) && Faultless(b)
    ensures Faultless(a + b)
  {
  }

  // ---------------------------------------------------------- pieces of runs

  function Reads(id: Id, verb: string, path: string, key: string): (r: seq<Event>)
    ensures Faultless(r)
  {
    [Arrive(id, verb, path, key), Get(id, true)]
  }

  function Finishes(id: Id, response: CachedResponse): (r: seq<Event>)
    ensures Faultless(r)
  {
    [Lock(id, Fine), Handle(id, Returned(response)), Put(id, Fine), Unlock(id, Fine)]
  }

  lemma ReadMisses(prefix: string, s: State, id: Id, verb: string, path: string, key: string)
    requires id !in s.requests && Eligible(verb, key) && !HasResponse(s.store, CacheKey(prefix, verb, path, key))
    ensures Run(prefix, s, Reads(id, verb, path, key))
         == s.(requests := s.requests[id := Request(verb, path, key, AtLock)])
  {
    RunTwo(prefix, s, Arrive(id, verb, path, key), Get(id, true));
    hide CacheKey, Eligible, Run;
    var arrived := s.(requests := s.requests[id := Request(verb, path, key, AtGet)]);
    assert Next(prefix, s, Arrive(id, verb, path, key)) == arrived;
    assert Next(prefix, arrived, Get(id, true)).requests
        == s.requests[id := Request(verb, path, key, AtLock)];
  }

  lemma ReadReplays(prefix: string, s: State, id: Id, verb: string, path: string, key: string)
    requires id !in s.requests && Eligible(verb, key) && HasResponse(s.store, CacheKey(prefix, verb, path, key))
    ensures Run(prefix, s, Reads(id, verb, path, key)) == s.(requests := s.requests[id :=
              Request(verb, path, key, Done(Replayed(s.store[CacheKey(prefix, verb, path, key)].response)))])
  {
    RunTwo(prefix, s, Arrive(id, verb, path, key), Get(id, true));
    hide CacheKey, Eligible, Run;
    var arrived := s.(requests := s.requests[id := Request(verb, path, key, AtGet)]);
    assert Next(prefix, s, Arrive(id, verb, path, key)) == arrived;
    assert Next(prefix, arrived, Get(id, true)).requests == s.requests[id :=
      Request(verb, path, key, Done(Replayed(s.store[CacheKey(prefix, verb, path, key)].response)))];
  }

  /** A waiting request that finds the lock free runs, stores and unlocks, whatever is stored already. */
  lemma WaiterFinishes(prefix: string, s: State, id: Id, response: CachedResponse)
    requires IsAt(s, id, AtLock) && LockOf(prefix, s.requests[id]) !in s.store && Successful(response.status)
    ensures var r := s.requests[id];
      Run(prefix, s, Finishes(id, response)) == State(
        s.store[Cache(prefix, r) := Stored(response)],
        s.requests[id := r.(pc := Done(Executed(response)))],
        s.expired,
        s.executions + {Execution(id, r.verb, r.path, r.key, response)})
  {
    var r := s.requests[id];
    var cacheKey, lockKey := Cache(prefix, r), LockOf(prefix, r);
    assert |lockKey| == |cacheKey| + |LOCK_SUFFIX|;
    hide CacheKey, LockKey;
    var e0, e1, e2, e3 := Lock(id, Fine), Handle(id, Returned(response)), Put(id, Fine), Unlock(id, Fine);
    var s1 := Next(prefix, s, e0);
    assert s1.store == s.store[lockKey := Token] && s1.requests == s.requests[id := r.(pc := Running)];
    var s2 := Next(prefix, s1, e1);
    assert s2.requests == s.requests[id := r.(pc := AtPut(response))];
    var s3 := Next(prefix, s2, e2);
    assert s3.requests == s.requests[id := r.(pc := AtUnlock(Executed(response)))];
    var s4 := Next(prefix, s3, e3);
    assert s4.store == s.store[cacheKey := Stored(response)];
    RunFour(prefix, s, e0, e1, e2, e3);
  }

  // ------------------------------------------------------------------- limits

  /** Without any fault, expiry or panic, two overlapping requests with one key can both run their
      handlers to a success: the second has missed before the first stored its response, and finds
      the lock free again after it. */
  lemma BothExecute(prefix: string, verb: string, path: string, key: string, first: CachedResponse, second: CachedResponse)
    returns (events: seq<Event>)
    requires Eligible(verb, key) && Successful(first.status) && Successful(second.status)
    ensures Faultless(events)
    ensures Reached(prefix, events).executions ==
            {Execution(0, verb, path, key, first), Execution(1, verb, path, key, second)}
    ensures Reached(prefix, events).store == map[CacheKey(prefix, verb, path, key) := Stored(second)]
  {
    LockIsLonger(prefix, Request(verb, path, key, AtGet));
    hide Next, CacheKey, LockKey, Eligible, StateAt, Faultless, Run;
    events := OneWaits(prefix, verb, path, key, first);
    Continues(prefix, events, Finishes(1, second));
    WaiterFinishes(prefix, Reached(prefix, events), 1, second);
    FaultlessTogether(events, Finishes(1, second));
    events := events + Finishes(1, second);
  }

  /** Requests 0 and 1 both miss; 0 runs to its end, and 1 has yet to try the lock. */
  lemma OneWaits(prefix: string, verb: string, path: string, key: string, first: CachedResponse)
    returns (events: seq<Event>)
    requires Eligible(verb, key) && Successful(first.status)
    ensures Faultless(events)
    ensures Reached(prefix, events) == State(
        map[CacheKey(prefix, verb, path, key) := Stored(first)],
        map[0 := Request(verb, path, key, Done(Executed(first))), 1 := Request(verb, path, key, AtLock)],
        multiset{},
        {Execution(0, verb, path, key, first)})
  {
    hide Next, CacheKey, LockKey, Eligible, StateAt, Faultless, Run;
    events := Reads(0, verb, path, key);
    StartsAtStart(prefix, events);
    ReadMisses(prefix, START, 0, verb, path, key);
    Continues(prefix, events, Reads(1, verb, path, key));
    ReadMisses(prefix, Reached(prefix, events), 1, verb, path, key);
    FaultlessTogether(events, Reads(1, verb, path, key));
    events := events + Reads(1, verb, path, key);
    Continues(prefix, events, Finishes(0, first));
    WaiterFinishes(prefix, Reached(prefix, events), 0, first);
    FaultlessTogether(events, Finishes(0, first));
    events := events + Finishes(0, first);
  }

  /** A new request that misses and finds its lock free runs to its end. */
  lemma OneMoreRun(prefix: string, events: seq<Event>, id: Id, verb: string, path: string, key: string, response: CachedResponse)
    returns (more: seq<Event>)
    requires Faultless(events) && id !in Reached(prefix, events).requests
    requires Eligible(verb, key) && Successful(response.status)
    requires !HasResponse(Reached(prefix, events).store, CacheKey(prefix, verb, path, key))
    requires LockKey(prefix, verb, path, key) !in Reached(prefix, events).store
    ensures Faultless(more) && more == events + (Reads(id, verb, path, key) + Finishes(id, response))
    ensures var s := Reached(prefix, events);
      Reached(prefix, more) == State(
        s.store[CacheKey(prefix, verb, path, key) := Stored(response)],
        s.requests[id := Request(verb, path, key, Done(Executed(response)))],
        s.expired,
        s.executions + {Execution(id, verb, path, key, response)})
  {
    hide Next, CacheKey, LockKey, Eligible, StateAt, Faultless, Run;
    var s := Reached(prefix, events);
    var read := events + Reads(id, verb, path, key);
    Continues(prefix, events, Reads(id, verb, path, key));
    ReadMisses(prefix, s, id, verb, path, key);
    FaultlessTogether(events, Reads(id, verb, path, key));
    Continues(prefix, read, Finishes(id, response));
    WaiterFinishes(prefix, Reached(prefix, read), id, response);
    FaultlessTogether(read, Finishes(id, response));
    more := read + Finishes(id, response);
    assert more == events + (Reads(id, verb, path, key) + Finishes(id, response));
    assert s.requests[id := Request(verb, path, key, AtLock)][id := Request(verb, path, key, Done(Executed(response)))]
        == s.requests[id := Request(verb, path, key, Done(Executed(response)))];
  }

  lemma StartsAtStart(prefix: string, events: seq<Event>)
    ensures Reached(prefix, events) == Run(prefix, START, events)
  {
    Continues(prefix, [], events);
    assert [] + events == events;
  }

  /** When a cache key is the lock key of another request, that request's unlock deletes the stored
      response, and a retry that does not overlap the first run executes again: without any fault,
      expiry or panic. So RetriesAreReplayed needs its condition on keys, whoever `other` is. */
  lemma AliasLosesResponse(
      prefix: string, other: Request, verb: string, path: string, key: string,
      failure: CachedResponse, response: CachedResponse)
    returns (before: seq<Event>, after: seq<Event>)
    requires Eligible(other.verb, other.key) && Eligible(verb, key)
    requires LockOf(prefix, other) == CacheKey(prefix, verb, path, key)
    requires Successful(response.status) && !Successful(failure.status)
    ensures Faultless(before + after)
    ensures IsAt(Reached(prefix, before), 1, Done(Executed(response)))
    ensures HasResponse(Reached(prefix, before).store, CacheKey(prefix, verb, path, key))
    ensures 2 !in Reached(prefix, before).requests
    ensures Execution(2, verb, path, key, response) in Reached(prefix, before + after).executions
    ensures IsAt(Reached(prefix, before + after), 2, Done(Executed(response)))
    ensures Cache(prefix, Reached(prefix, before + after).requests[2]) == CacheKey(prefix, verb, path, key)
  {
    before := StoresOverLock(prefix, other, verb, path, key, response);
    var s := Reached(prefix, before);
    hide Next, CacheKey, LockKey, Eligible, StateAt, Faultless, Run;
    FailureUnlocks(prefix, s, 0, failure);
    var failed := before + Fails(0, failure);
    Continues(prefix, before, Fails(0, failure));
    FaultlessTogether(before, Fails(0, failure));
    LockIsLonger(prefix, Request(verb, path, key, AtGet));
    var all := OneMoreRun(prefix, failed, 2, verb, path, key, response);
    after := Fails(0, failure) + (Reads(2, verb, path, key) + Finishes(2, response));
    assert before + after == all;
  }

  /** Request 1 stores its response over the lock that request 0, still running, believes to hold. */
  lemma StoresOverLock(
      prefix: string, other: Request, verb: string, path: string, key: string, response: CachedResponse)
    returns (events: seq<Event>)
    requires Eligible(other.verb, other.key) && Eligible(verb, key)
    requires LockOf(prefix, other) == CacheKey(prefix, verb, path, key)
    requires Successful(response.status)
    ensures Faultless(events)
    ensures var s := Reached(prefix, events);
      && s.store == map[CacheKey(prefix, verb, path, key) := Stored(response)]
      && s.requests == map[0 := other.(pc := Running), 1 := Request(verb, path, key, Done(Executed(response)))]
  {
    hide Next, CacheKey, LockKey, Eligible, StateAt, Faultless, Run;
    var read0, read1 := Reads(0, other.verb, other.path, other.key), Reads(1, verb, path, key);
    StartsAtStart(prefix, read0);
    ReadMisses(prefix, START, 0, other.verb, other.path, other.key);
    Continues(prefix, read0, [Lock(0, Fine)]);
    LockTaken(prefix, Reached(prefix, read0), 0);
    events := read0 + [Lock(0, Fine)];
    LockIsFaultless(0);
    FaultlessTogether(read0, [Lock(0, Fine)]);
    Continues(prefix, events, read1);
    ReadMisses(prefix, Reached(prefix, events), 1, verb, path, key);
    FaultlessTogether(events, read1);
    events := events + read1;
    Continues(prefix, events, Finishes(1, response));
    LockIsLonger(prefix, Reached(prefix, events).requests[1]);
    WaiterFinishes(prefix, Reached(prefix, events), 1, response);
    FaultlessTogether(events, Finishes(1, response));
    events := events + Finishes(1, response);
  }

  lemma LockIsLonger(prefix: string, r: Request)
    ensures LockOf(prefix, r) != Cache(prefix, r)
  {
    assert |LockOf(prefix, r)| == |Cache(prefix, r)| + |LOCK_SUFFIX|;
  }

  lemma LockIsFaultless(id: Id)
    ensures Faultless([Lock(id, Fine)])
  {
  }

  lemma LockTaken(prefix: string, s: State, id: Id)
    requires IsAt(s, id, AtLock) && LockOf(prefix, s.requests[id]) !in s.store
    ensures Run(prefix, s, [Lock(id, Fine)]) == s.(
        store := s.store[LockOf(prefix, s.requests[id]) := Token],
        requests := s.requests[id := s.requests[id].(pc := Running)])
  {
    hide LockOf, Cache;
    assert [Lock(id, Fine)][1..] == [];
  }

  function Fails(id: Id, failure: CachedResponse): (r: seq<Event>)
    ensures Faultless(r)
  {
    [Handle(id, Returned(failure)), Unlock(id, Fine)]
  }

  lemma FailureUnlocks(prefix: string, s: State, id: Id, failure: CachedResponse)
    requires IsAt(s, id, Running) && !Successful(failure.status)
    ensures var r := s.requests[id];
      Run(prefix, s, Fails(id, failure)) == State(
        s.store - {LockOf(prefix, r)},
        s.requests[id := r.(pc := Done(Executed(failure)))],
        s.expired,
        s.executions + {Execution(id, r.verb, r.path, r.key, failure)})
  {
    var r := s.requests[id];
    RunTwo(prefix, s, Handle(id, Returned(failure)), Unlock(id, Fine));
    var s1 := Next(prefix, s, Handle(id, Returned(failure)));
    assert s1.requests == s.requests[id := r.(pc := AtUnlock(Executed(failure)))];
    assert LockOf(prefix, s1.requests[id]) == LockOf(prefix, r);
    hide LockOf, Cache;
    assert Next(prefix, s1, Unlock(id, Fine)).requests == s.requests[id := r.(pc := Done(Executed(failure)))];
  }

  /** Exactly: a request that arrives after a response was stored for it can run its handler, with no
      fault, expiry or panic anywhere, if and only if its cache key is the lock key of some request. */
  lemma LateRunExact(prefix: string, verb: string, path: string, key: string)
    requires Eligible(verb, key)
    ensures Aliased(prefix, CacheKey(prefix, verb, path, key)) <==>
            exists before, after, id :: RunsAgain(prefix, before, after, id, CacheKey(prefix, verb, path, key))
  {
    var cacheKey := CacheKey(prefix, verb, path, key);
    if Aliased(prefix, cacheKey) {
      var m, p, k :| Eligible(m, k) && LockKey(prefix, m, p, k) == cacheKey;
      var failure, response := CachedResponse(500, map[], []), CachedResponse(200, map[], []);
      var before, after :=
        AliasLosesResponse(prefix, Request(m, p, k, AtGet), verb, path, key, failure, response);
      assert RunsAgain(prefix, before, after, 2, cacheKey);
    }
    if before, after, id :| RunsAgain(prefix, before, after, id, cacheKey) && !Aliased(prefix, cacheKey) {
      var events := before + after;
      StateAtPrefix(prefix, events, before, |before|);
      FaultlessIsReliable(prefix, events, |before|, cacheKey);
      RetriesAreReplayed(prefix, events, |before|, |events|, cacheKey, id);
      assert false;
    }
  }

  ghost predicate RunsAgain(prefix: string, before: seq<Event>, after: seq<Event>, id: Id, cacheKey: string) {
    && Faultless(before + after)
    && HasResponse(Reached(prefix, before).store, cacheKey)
    && id !in Reached(prefix, before).requests
    && id in RanFor(prefix, Reached(prefix, before + after), cacheKey)
  }

  lemma FaultlessIsReliable(prefix: string, events: seq<Event>, i: nat, cacheKey: string)
    requires Faultless(events) && i <= |events|
    ensures ReliableReads(prefix, events, i, |events|, cacheKey) && NoExpiryOf(events, i, |events|, cacheKey)
  {
    hide StateAt;
    forall m | i <= m < |events|
      ensures events[m].Get? ==> events[m].ok
      ensures events[m] != Expire(cacheKey)
    {
      assert events[m] in events;
      assert WithoutFault(events[m]);
    }
  }

  /** The same for paths without a colon, in terms of the client's key alone: it is another key + ":lock". */
  lemma LateRunOnPlainPaths(prefix: string, verb: string, path: string, key: string)
    requires Eligible(verb, key) && ColonFree(path)
    ensures |key| > 5 && EndsWith(key, LOCK_SUFFIX) <==>
            exists before, after, id :: RunsAgain(prefix, before, after, id, CacheKey(prefix, verb, path, key))
  {
    LateRunExact(prefix, verb, path, key);
    AliasedOnPlainPaths(prefix, verb, path, key);
    hide Aliased, RunsAgain, CacheKey, EndsWith;
  }

  // ------------------------------------------------- who can still run

  /** With no further fault, expiry or panic, some continuation runs this request's handler. */
  ghost predicate CanStillRun(prefix: string, s: State, id: Id, cacheKey: string) {
    exists after :: Faultless(after) && id in RanFor(prefix, Run(prefix, s, after), cacheKey)
  }

  /** The lock key is taken and nobody will give it back. */
  predicate ShutOut(prefix: string, s: State, lockKey: string) {
    lockKey in s.store && Holders(prefix, s.requests, lockKey) == {}
  }

  /** A response is stored, and nobody will delete it by an unlock: every read will hit. */
  predicate Kept(prefix: string, s: State, cacheKey: string) {
    HasResponse(s.store, cacheKey) && ShutOut(prefix, s, cacheKey)
  }

  /** Exactly, from every state, whether or not a response is stored and whoever's lock key the cache key
      is: a request that is there and has not run can still run its handler if and only if its lock is free
      or has a holder to free it, and it has missed already or is yet to read and can miss. */
  lemma CanStillRunExact(prefix: string, s: State, id: Id)
    requires id in s.requests && !Ran(s.requests[id].pc)
    ensures var r := s.requests[id];
      CanStillRun(prefix, s, id, Cache(prefix, r))
      <==> !ShutOut(prefix, s, LockOf(prefix, r))
           && (r.pc == AtLock || (r.pc == AtGet && !Kept(prefix, s, Cache(prefix, r))))
  {
    var r := s.requests[id];
    var cacheKey := Cache(prefix, r);
    assert LockOf(prefix, r) == cacheKey + LOCK_SUFFIX;
    hide LockOf, Cache, ShutOut, Kept, Faultless, Run;
    if CanStillRun(prefix, s, id, cacheKey) {
      var after :| Faultless(after) && id in RanFor(prefix, Run(prefix, s, after), cacheKey);
      if Hopeless(prefix, s, id, cacheKey) {
        HopelessForGood(prefix, s, after, id, cacheKey);
      }
    }
    hide CanStillRun;
    if !ShutOut(prefix, s, LockOf(prefix, r)) {
      if r.pc == AtLock {
        WaiterCanRun(prefix, s, id);
      } else if r.pc == AtGet && !Kept(prefix, s, cacheKey) {
        ReaderCanRun(prefix, s, id);
      }
    }
  }

  /** The same for a request that is still to come, for a cache key that some eligible request has. */
  lemma NewcomerCanRunExact(prefix: string, s: State, id: Id, verb: string, path: string, key: string)
    requires id !in s.requests && Eligible(verb, key)
    ensures var cacheKey, lockKey := CacheKey(prefix, verb, path, key), LockKey(prefix, verb, path, key);
      CanStillRun(prefix, s, id, cacheKey) <==> !ShutOut(prefix, s, lockKey) && !Kept(prefix, s, cacheKey)
  {
    var cacheKey, lockKey := CacheKey(prefix, verb, path, key), LockKey(prefix, verb, path, key);
    assert lockKey == cacheKey + LOCK_SUFFIX;
    if CanStillRun(prefix, s, id, cacheKey) {
      var after :| Faultless(after) && id in RanFor(prefix, Run(prefix, s, after), cacheKey);
      hide ShutOut, Kept, Run, Faultless, CacheKey, LockKey;
      if Hopeless(prefix, s, id, cacheKey) {
        HopelessForGood(prefix, s, after, id, cacheKey);
      }
    }
    if !ShutOut(prefix, s, lockKey) && !Kept(prefix, s, cacheKey) {
      var arrives := Arrive(id, verb, path, key);
      var arrived := s.(requests := s.requests[id := Request(verb, path, key, AtGet)]);
      assert Next(prefix, s, arrives) == arrived;
      hide CacheKey, LockKey, Run, Faultless, Eligible, Next;
      HoldersUpdate(prefix, s.requests, id, arrived.requests[id], lockKey);
      HoldersUpdate(prefix, s.requests, id, arrived.requests[id], cacheKey);
      CanStillRunExact(prefix, arrived, id);
      StepFirst(prefix, s, arrives, id, cacheKey);
    }
  }

  /** What can run after a step can run before it. */
  lemma StepFirst(prefix: string, s: State, e: Event, id: Id, cacheKey: string)
    requires WithoutFault(e) && CanStillRun(prefix, Next(prefix, s, e), id, cacheKey)
    ensures CanStillRun(prefix, s, id, cacheKey)
  {
    hide Next, RanFor, WithoutFault;
    var after :| Faultless(after) && id in RanFor(prefix, Run(prefix, Next(prefix, s, e), after), cacheKey);
    assert ([e] + after)[1..] == after;
    assert Run(prefix, s, [e] + after) == Run(prefix, Next(prefix, s, e), after);
    assert Faultless([e] + after);
  }

  lemma EventsFirst(prefix: string, s: State, events: seq<Event>, id: Id, cacheKey: string)
    requires Faultless(events) && CanStillRun(prefix, Run(prefix, s, events), id, cacheKey)
    ensures CanStillRun(prefix, s, id, cacheKey)
  {
    hide Faultless, Run, RanFor;
    var after :| Faultless(after) && id in RanFor(prefix, Run(prefix, Run(prefix, s, events), after), cacheKey);
    RunTogether(prefix, s, events, after);
    FaultlessTogether(events, after);
  }

  /** In every reachable state with a response stored under a key that is nobody's lock key: of the
      requests there that have not run, those can still run that have missed already and whose lock is
      free or has a holder to free it. Readers, and those that find an orphaned lock key, cannot. */
  lemma LateRunOfPresentExact(prefix: string, events: seq<Event>, id: Id, cacheKey: string)
    requires var s := Reached(prefix, events);
      && HasResponse(s.store, cacheKey) && !Aliased(prefix, cacheKey)
      && id in s.requests && Cache(prefix, s.requests[id]) == cacheKey && id !in RanFor(prefix, s, cacheKey)
    ensures var s := Reached(prefix, events);
      CanStillRun(prefix, s, id, cacheKey)
      <==> id in WaitingFor(prefix, s, cacheKey) && !ShutOut(prefix, s, LockOf(prefix, s.requests[id]))
  {
    var s := Reached(prefix, events);
    ProtocolIsForEligible(prefix, events, |events|);
    CanStillRunExact(prefix, s, id);
    NobodyHolds(prefix, s, cacheKey);
    hide Aliased, LockOf, CacheKey, StateAt, CanStillRun, Cache, OnlyEligible;
  }

  lemma NobodyHolds(prefix: string, s: State, cacheKey: string)
    requires OnlyEligible(s) && !Aliased(prefix, cacheKey)
    ensures Holders(prefix, s.requests, cacheKey) == {}
  {
    forall id | id in s.requests && Holding(s.requests[id].pc)
      ensures LockOf(prefix, s.requests[id]) != cacheKey
    {
      var r := s.requests[id];
      assert Eligible(r.verb, r.key);
      assert LockOf(prefix, r) == LockKey(prefix, r.verb, r.path, r.key);
    }
  }

  /** Nothing will make the request run for this cache key: the lock key is orphaned, or the request is yet
      to read and its response will stay, or it is done. */
  predicate Hopeless(prefix: string, s: State, id: Id, cacheKey: string) {
    if id !in s.requests then
      ShutOut(prefix, s, cacheKey + LOCK_SUFFIX) || Kept(prefix, s, cacheKey)
    else
      Cache(prefix, s.requests[id]) == cacheKey ==>
        var pc := s.requests[id].pc;
        && !Ran(pc)
        && (ShutOut(prefix, s, cacheKey + LOCK_SUFFIX) || (Kept(prefix, s, cacheKey) && pc == AtGet) || pc.Done?)
  }

  /** Nobody frees a lock key without a holder. */
  lemma {:induction false} StepKeepsShutOut(prefix: string, s: State, e: Event, lockKey: string)
    requires ShutOut(prefix, s, lockKey) && WithoutFault(e)
    ensures ShutOut(prefix, Next(prefix, s, e), lockKey)
  {
    HoldersAfterStep(prefix, s, e, lockKey);
    hide Next, Holders;
  }

  /** And a response stored under it stays one. */
  lemma StepKeepsKept(prefix: string, s: State, e: Event, cacheKey: string)
    requires Kept(prefix, s, cacheKey) && WithoutFault(e)
    ensures Kept(prefix, Next(prefix, s, e), cacheKey)
  {
    StepKeepsShutOut(prefix, s, e, cacheKey);
    if Next(prefix, s, e).store[cacheKey].Token? {
      StepSetsToken(prefix, s, e, cacheKey);
    }
    hide Next, Holders;
  }

  /** How a request moves: from the handler's side, only by holding the lock. */
  lemma RunsByHolding(prefix: string, s: State, e: Event, id: Id)
    requires id in s.requests && !Ran(s.requests[id].pc)
    requires id in Next(prefix, s, e).requests && Ran(Next(prefix, s, e).requests[id].pc)
    ensures id in Holders(prefix, Next(prefix, s, e).requests, LockOf(prefix, s.requests[id]))
  {
    StepProgress(prefix, s, e, id);
    StepKeepsIdentity(prefix, s, e, id);
    hide Cache, LockKey;
  }

  lemma ReaderHits(prefix: string, s: State, e: Event, id: Id)
    requires id in s.requests && s.requests[id].pc == AtGet
    requires HasResponse(s.store, Cache(prefix, s.requests[id])) && WithoutFault(e)
    ensures id in Next(prefix, s, e).requests
    ensures var pc := Next(prefix, s, e).requests[id].pc; pc == AtGet || (pc.Done? && !Ran(pc))
  {
    hide Cache, LockOf, Eligible;
  }

  lemma DoneStays(prefix: string, s: State, e: Event, id: Id)
    requires id in s.requests && s.requests[id].pc.Done?
    ensures id in Next(prefix, s, e).requests && Next(prefix, s, e).requests[id] == s.requests[id]
  {
    hide Cache, LockOf, Eligible;
  }

  lemma Arrives(prefix: string, s: State, e: Event, id: Id)
    requires id !in s.requests && id in Next(prefix, s, e).requests
    ensures var pc := Next(prefix, s, e).requests[id].pc; pc == AtGet || pc == Done(Bypassed)
  {
    hide Cache, LockOf, Eligible;
  }

  lemma {:induction false} StepKeepsHopeless(prefix: string, s: State, e: Event, id: Id, cacheKey: string)
    requires Hopeless(prefix, s, id, cacheKey) && WithoutFault(e)
    ensures Hopeless(prefix, Next(prefix, s, e), id, cacheKey)
  {
    var next, lockKey := Next(prefix, s, e), cacheKey + LOCK_SUFFIX;
    if ShutOut(prefix, s, lockKey) {
      StepKeepsShutOut(prefix, s, e, lockKey);
    }
    if Kept(prefix, s, cacheKey) {
      StepKeepsKept(prefix, s, e, cacheKey);
    }
    if id !in s.requests {
      if id in next.requests {
        Arrives(prefix, s, e, id);
      }
    } else {
      StepKeepsIdentity(prefix, s, e, id);
      SameCache(prefix, s.requests[id], next.requests[id]);
      hide Next, Kept, WithoutFault;
      if Cache(prefix, s.requests[id]) == cacheKey {
        HopelessMoves(prefix, s, e, id);
      }
    }
    hide Next, Cache, ShutOut, Kept, Ran, WithoutFault;
  }

  /** The three ways to be hopeless do not lead to the handler. */
  lemma HopelessMoves(prefix: string, s: State, e: Event, id: Id)
    requires id in s.requests && id in Next(prefix, s, e).requests && WithoutFault(e)
    requires Hopeless(prefix, s, id, Cache(prefix, s.requests[id]))
    ensures var pc, lockKey := s.requests[id].pc, Cache(prefix, s.requests[id]) + LOCK_SUFFIX;
      var then_ := Next(prefix, s, e).requests[id].pc;
      && !Ran(then_)
      && (ShutOut(prefix, s, lockKey) || (pc == AtGet && (then_ == AtGet || then_.Done?)) || (pc.Done? && then_.Done?))
  {
    var lockKey := Cache(prefix, s.requests[id]) + LOCK_SUFFIX;
    assert LockOf(prefix, s.requests[id]) == lockKey;
    hide Next, Cache, LockOf, WithoutFault;
    if ShutOut(prefix, s, lockKey) {
      StepKeepsShutOut(prefix, s, e, lockKey);
      if Ran(Next(prefix, s, e).requests[id].pc) {
        RunsByHolding(prefix, s, e, id);
      }
    } else if s.requests[id].pc.Done? {
      DoneStays(prefix, s, e, id);
    } else {
      ReaderHits(prefix, s, e, id);
    }
  }

  lemma {:induction false} HopelessForGood(prefix: string, s: State, after: seq<Event>, id: Id, cacheKey: string)
    requires Hopeless(prefix, s, id, cacheKey) && Faultless(after)
    ensures id !in RanFor(prefix, Run(prefix, s, after), cacheKey)
    decreases |after|
  {
    if after != [] {
      assert after[0] in after && Faultless(after[1..]) by {
        hide WithoutFault;
        assert forall e :: e in after[1..] ==> e in after;
      }
      StepKeepsHopeless(prefix, s, after[0], id, cacheKey);
      hide Next, Cache, Hopeless, Faultless;
      HopelessForGood(prefix, Next(prefix, s, after[0]), after[1..], id, cacheKey);
    }
  }

  /** What a holder still has to do, its handler failing if it is still running. */
  function FinishHolding(id: Id, pc: Pc): (r: seq<Event>)
    ensures Faultless(r)
  {
    match pc
    case Running => [Handle(id, Returned(CachedResponse(500, map[], []))), Unlock(id, Fine)]
    case AtPut(_) => [Put(id, Fine), Unlock(id, Fine)]
    case _ => [Unlock(id, Fine)]
  }

  lemma PutUnlocks(prefix: string, s: State, id: Id)
    requires id in s.requests && s.requests[id].pc.AtPut?
    ensures var r := s.requests[id];
      Run(prefix, s, [Put(id, Fine), Unlock(id, Fine)]) == s.(
        store := s.store[Cache(prefix, r) := Stored(r.pc.response)] - {LockOf(prefix, r)},
        requests := s.requests[id := r.(pc := Done(Executed(r.pc.response)))])
  {
    var r := s.requests[id];
    RunTwo(prefix, s, Put(id, Fine), Unlock(id, Fine));
    var s1 := Next(prefix, s, Put(id, Fine));
    assert s1.requests == s.requests[id := r.(pc := AtUnlock(Executed(r.pc.response)))];
    assert LockOf(prefix, s1.requests[id]) == LockOf(prefix, r);
    hide LockOf, Cache, Run;
    assert Next(prefix, s1, Unlock(id, Fine)).requests == s.requests[id := r.(pc := Done(Executed(r.pc.response)))];
  }

  /** A holder frees its lock, and stores nothing but its own response on the way. */
  lemma HolderFrees(prefix: string, s: State, holder: Id, lockKey: string)
    requires holder in Holders(prefix, s.requests, lockKey)
    ensures var freed := Run(prefix, s, FinishHolding(holder, s.requests[holder].pc));
      && lockKey !in freed.store
      && freed.store.Keys <= s.store.Keys + {Cache(prefix, s.requests[holder])}
      && freed.requests.Keys == s.requests.Keys
      && forall id :: id in s.requests && id != holder ==> freed.requests[id] == s.requests[id]
  {
    var r := s.requests[holder];
    hide CacheKey, LockKey;
    match r.pc {
      case Running =>
        FailureUnlocks(prefix, s, holder, CachedResponse(500, map[], []));
      case AtPut(_) =>
        PutUnlocks(prefix, s, holder);
        hide Run;
      case AtUnlock(_) =>
        RunTwo(prefix, s, Unlock(holder, Fine), Unlock(holder, Fine));
        hide Run;
    }
  }

  /** A waiting request can run once its lock is free, and a holder can free it. */
  lemma WaiterCanRun(prefix: string, s: State, id: Id)
    requires IsAt(s, id, AtLock) && !ShutOut(prefix, s, LockOf(prefix, s.requests[id]))
    ensures CanStillRun(prefix, s, id, Cache(prefix, s.requests[id]))
  {
    var lockKey, cacheKey := LockOf(prefix, s.requests[id]), Cache(prefix, s.requests[id]);
    LockIsFaultless(id);
    hide CacheKey, LockKey, Next, Run;
    if lockKey !in s.store {
      LockTaken(prefix, s, id);
      assert id in RanFor(prefix, Run(prefix, s, [Lock(id, Fine)]), cacheKey);
    } else {
      var holder :| holder in Holders(prefix, s.requests, lockKey);
      var frees := FinishHolding(holder, s.requests[holder].pc);
      HolderFrees(prefix, s, holder, lockKey);
      RunTogether(prefix, s, frees, [Lock(id, Fine)]);
      LockTaken(prefix, Run(prefix, s, frees), id);
      FaultlessTogether(frees, [Lock(id, Fine)]);
      assert id in RanFor(prefix, Run(prefix, s, frees + [Lock(id, Fine)]), cacheKey);
    }
  }

  /** A request that is yet to read can run if its read can miss, now or once a holder of its cache key, as
      a lock key, has deleted it. */
  lemma ReaderCanRun(prefix: string, s: State, id: Id)
    requires IsAt(s, id, AtGet) && !ShutOut(prefix, s, LockOf(prefix, s.requests[id]))
    requires !Kept(prefix, s, Cache(prefix, s.requests[id]))
    ensures CanStillRun(prefix, s, id, Cache(prefix, s.requests[id]))
  {
    var r := s.requests[id];
    var cacheKey := Cache(prefix, r);
    if !HasResponse(s.store, cacheKey) {
      MissThenRun(prefix, s, id);
    } else {
      var holder :| holder in Holders(prefix, s.requests, cacheKey);
      var freed := Run(prefix, s, FinishHolding(holder, s.requests[holder].pc));
      HolderFrees(prefix, s, holder, cacheKey);
      FreeingOneLock(prefix, s, holder, cacheKey, freed, LockOf(prefix, r));
      LockIsLonger(prefix, r);
      assert |LockOf(prefix, r)| == |cacheKey| + |LOCK_SUFFIX|;
      hide LockOf, Cache, Run, ShutOut;
      MissThenRun(prefix, freed, id);
      EventsFirst(prefix, s, FinishHolding(holder, s.requests[holder].pc), id, cacheKey);
    }
  }

  /** Freeing a lock does not orphan a longer lock key. */
  lemma FreeingOneLock(prefix: string, s: State, holder: Id, freedKey: string, freed: State, lockKey: string)
    requires holder in Holders(prefix, s.requests, freedKey) && |lockKey| > |freedKey|
    requires !ShutOut(prefix, s, lockKey)
    requires freed.store.Keys <= s.store.Keys + {Cache(prefix, s.requests[holder])}
    requires freed.requests.Keys == s.requests.Keys
    requires forall id :: id in s.requests && id != holder ==> freed.requests[id] == s.requests[id]
    ensures !ShutOut(prefix, freed, lockKey)
  {
    assert |freedKey| == |Cache(prefix, s.requests[holder])| + |LOCK_SUFFIX|;
    hide Cache, LockOf;
    if lockKey in s.store {
      var other :| other in Holders(prefix, s.requests, lockKey);
      assert other in Holders(prefix, freed.requests, lockKey);
    }
  }

  lemma MissThenRun(prefix: string, s: State, id: Id)
    requires IsAt(s, id, AtGet) && !ShutOut(prefix, s, LockOf(prefix, s.requests[id]))
    requires !HasResponse(s.store, Cache(prefix, s.requests[id]))
    ensures CanStillRun(prefix, s, id, Cache(prefix, s.requests[id]))
  {
    var r := s.requests[id];
    var missed := s.(requests := s.requests[id := r.(pc := AtLock)]);
    assert Next(prefix, s, Get(id, true)) == missed;
    assert Cache(prefix, missed.requests[id]) == Cache(prefix, r) && LockOf(prefix, missed.requests[id]) == LockOf(prefix, r);
    HoldersUpdate(prefix, s.requests, id, missed.requests[id], LockOf(prefix, r));
    hide Next, Cache, LockOf, Run, Holders;
    WaiterCanRun(prefix, missed, id);
    StepFirst(prefix, s, Get(id, true), id, Cache(prefix, r));
  }

  /** Being in time is not enough: without any fault, expiry or panic a request can be left waiting at a lock
      key that holds the response of a third request and that nobody will free. All it can get is a 409,
      with nobody in progress. */
  lemma WaiterIsShutOut(prefix: string, verb: string, path: string, key: string, first: CachedResponse, third: CachedResponse)
    returns (events: seq<Event>)
    requires Eligible(verb, key) && Successful(first.status) && Successful(third.status)
    ensures Faultless(events)
    ensures var s, cacheKey := Reached(prefix, events), CacheKey(prefix, verb, path, key);
      && HasResponse(s.store, cacheKey) && 1 in WaitingFor(prefix, s, cacheKey)
      && ShutOut(prefix, s, LockKey(prefix, verb, path, key)) && Conflicts(prefix, s, 1)
      && forall id :: id in s.requests ==> !Holding(s.requests[id].pc)
  {
    events := OneWaits(prefix, verb, path, key, first);
    var s, longer := Reached(prefix, events), key + LOCK_SUFFIX;
    assert LockKey(prefix, verb, path, key) == CacheKey(prefix, verb, path, longer);
    assert |LockKey(prefix, verb, path, longer)| == |CacheKey(prefix, verb, path, key)| + 10;
    hide Next, CacheKey, LockKey, Mutating, StateAt, Faultless, Run;
    LockIsLonger(prefix, s.requests[1]);
    events := OneMoreRun(prefix, events, 2, verb, path, longer, third);
    TakenMeansConflict(prefix, Reached(prefix, events), 1);
  }

  /** A SETNX that was carried out although its reply was lost leaves a lock that nobody holds: without any
      other fault, and with nothing expired or executed, the next request gets a 409. */
  lemma LostReplyConflicts(prefix: string, verb: string, path: string, key: string) returns (events: seq<Event>)
    requires Eligible(verb, key)
    ensures events == Reads(0, verb, path, key) + [Lock(0, Applied)] + Reads(1, verb, path, key)
    ensures var s := Reached(prefix, events);
      && Conflicts(prefix, s, 1) && Holders(prefix, s.requests, LockKey(prefix, verb, path, key)) == {}
      && s.executions == {} && s.expired == multiset{}
  {
    LockIsLonger(prefix, Request(verb, path, key, AtGet));
    hide CacheKey, LockKey, Eligible, StateAt, Run;
    var read := Reads(0, verb, path, key);
    StartsAtStart(prefix, read);
    ReadMisses(prefix, START, 0, verb, path, key);
    Continues(prefix, read, [Lock(0, Applied)]);
    LockLost(prefix, Reached(prefix, read), 0);
    hide Next;
    Continues(prefix, read + [Lock(0, Applied)], Reads(1, verb, path, key));
    ReadMisses(prefix, Reached(prefix, read + [Lock(0, Applied)]), 1, verb, path, key);
    events := read + [Lock(0, Applied)] + Reads(1, verb, path, key);
    TakenMeansConflict(prefix, Reached(prefix, events), 1);
  }

  /** So does an unlock that is lost, after a handler that failed: the retry is refused until the lock expires. */
  lemma LostUnlockConflicts(prefix: string, verb: string, path: string, key: string, failure: CachedResponse)
    returns (events: seq<Event>)
    requires Eligible(verb, key) && !Successful(failure.status)
    ensures events == Reads(0, verb, path, key) + [Lock(0, Fine)]
                      + [Handle(0, Returned(failure)), Unlock(0, NotApplied)] + Reads(1, verb, path, key)
    ensures var s := Reached(prefix, events);
      && Conflicts(prefix, s, 1) && Holders(prefix, s.requests, LockKey(prefix, verb, path, key)) == {}
      && s.expired == multiset{}
  {
    LockIsLonger(prefix, Request(verb, path, key, AtGet));
    hide CacheKey, LockKey, Eligible, StateAt, Run, Next;
    var read, fails := Reads(0, verb, path, key), [Handle(0, Returned(failure)), Unlock(0, NotApplied)];
    StartsAtStart(prefix, read);
    ReadMisses(prefix, START, 0, verb, path, key);
    Continues(prefix, read, [Lock(0, Fine)]);
    LockTaken(prefix, Reached(prefix, read), 0);
    events := read + [Lock(0, Fine)];
    Continues(prefix, events, fails);
    FailureKeepsLock(prefix, Reached(prefix, events), 0, failure);
    events := events + fails;
    Continues(prefix, events, Reads(1, verb, path, key));
    ReadMisses(prefix, Reached(prefix, events), 1, verb, path, key);
    events := events + Reads(1, verb, path, key);
    TakenMeansConflict(prefix, Reached(prefix, events), 1);
  }

  lemma FailureKeepsLock(prefix: string, s: State, id: Id, failure: CachedResponse)
    requires IsAt(s, id, Running) && !Successful(failure.status)
    ensures var r := s.requests[id];
      Run(prefix, s, [Handle(id, Returned(failure)), Unlock(id, NotApplied)]) == s.(
        requests := s.requests[id := r.(pc := Done(Executed(failure)))],
        executions := s.executions + {Execution(id, r.verb, r.path, r.key, failure)})
  {
    var r := s.requests[id];
    RunTwo(prefix, s, Handle(id, Returned(failure)), Unlock(id, NotApplied));
    var s1 := Next(prefix, s, Handle(id, Returned(failure)));
    assert s1.requests == s.requests[id := r.(pc := AtUnlock(Executed(failure)))];
    hide LockOf, Cache, Run;
    assert Next(prefix, s1, Unlock(id, NotApplied)).requests == s.requests[id := r.(pc := Done(Executed(failure)))];
  }

  lemma LockLost(prefix: string, s: State, id: Id)
    requires IsAt(s, id, AtLock) && LockOf(prefix, s.requests[id]) !in s.store
    ensures Run(prefix, s, [Lock(id, Applied)]) == s.(
        store := s.store[LockOf(prefix, s.requests[id]) := Token],
        requests := s.requests[id := s.requests[id].(pc := Done(LockUnavailable))])
  {
    hide LockOf, Cache;
    assert [Lock(id, Applied)][1..] == [];
  }

  lemma TakenMeansConflict(prefix: string, s: State, id: Id)
    requires IsAt(s, id, AtLock) && LockOf(prefix, s.requests[id]) in s.store
    ensures Conflicts(prefix, s, id)
  {
    hide LockKey;
  }

  /** A read that fails lets a late request run although its response is stored, with the lock free
      and nothing expired: so RetriesAreReplayed needs reliable reads. */
  lemma FailedReadRunsAgain(prefix: string, verb: string, path: string, key: string, first: CachedResponse, second: CachedResponse)
    returns (before: seq<Event>, after: seq<Event>)
    requires Eligible(verb, key) && Successful(first.status) && Successful(second.status)
    ensures |after| > 2 && Faultless(before) && Faultless(after[2..])
    ensures after[..2] == [Arrive(1, verb, path, key), Get(1, false)]
    ensures HasResponse(Reached(prefix, before).store, CacheKey(prefix, verb, path, key))
    ensures Reached(prefix, before + after).executions ==
            {Execution(0, verb, path, key, first), Execution(1, verb, path, key, second)}
  {
    LockIsLonger(prefix, Request(verb, path, key, AtGet));
    hide Next, CacheKey, LockKey, Eligible, StateAt, Faultless, Run;
    var read := Reads(0, verb, path, key);
    StartsAtStart(prefix, read);
    ReadMisses(prefix, START, 0, verb, path, key);
    Continues(prefix, read, Finishes(0, first));
    WaiterFinishes(prefix, Reached(prefix, read), 0, first);
    FaultlessTogether(read, Finishes(0, first));
    before := read + Finishes(0, first);
    var failed := [Arrive(1, verb, path, key), Get(1, false)];
    Continues(prefix, before, failed);
    ReadFails(prefix, Reached(prefix, before), 1, verb, path, key);
    Continues(prefix, before + failed, Finishes(1, second));
    WaiterFinishes(prefix, Reached(prefix, before + failed), 1, second);
    after := failed + Finishes(1, second);
    assert before + after == before + failed + Finishes(1, second);
    assert after[2..] == Finishes(1, second);
  }

  lemma ReadFails(prefix: string, s: State, id: Id, verb: string, path: string, key: string)
    requires id !in s.requests && Eligible(verb, key)
    ensures Run(prefix, s, [Arrive(id, verb, path, key), Get(id, false)])
         == s.(requests := s.requests[id := Request(verb, path, key, AtLock)])
  {
    RunTwo(prefix, s, Arrive(id, verb, path, key), Get(id, false));
    hide CacheKey, Eligible, Run;
    var arrived := s.(requests := s.requests[id := Request(verb, path, key, AtGet)]);
    assert Next(prefix, s, Arrive(id, verb, path, key)) == arrived;
    assert Next(prefix, arrived, Get(id, false)).requests == s.requests[id := Request(verb, path, key, AtLock)];
  }

  /** When path:key can be split in two ways, the response recorded for one path is replayed on the
      other: so ReplaysWereExecuted needs its condition on paths. */
  lemma ColonMixesPaths(prefix: string, verb: string, path: string, key: string, path2: string, key2: string,
                        response: CachedResponse)
    returns (events: seq<Event>)
    requires Eligible(verb, key) && Eligible(verb, key2) && Successful(response.status)
    requires path + ":" + key == path2 + ":" + key2
    ensures Faultless(events)
    ensures IsAt(Reached(prefix, events), 1, Done(Replayed(response)))
    ensures Reached(prefix, events).requests[1].path == path2
    ensures Reached(prefix, events).executions == {Execution(0, verb, path, key, response)}
  {
    CacheKeysCollide(prefix, verb, path, key, verb, path2, key2);
    hide Next, CacheKey, LockKey, Eligible, StateAt;
    events := Reads(0, verb, path, key);
    StartsAtStart(prefix, events);
    ReadMisses(prefix, START, 0, verb, path, key);
    Continues(prefix, events, Finishes(0, response));
    WaiterFinishes(prefix, Reached(prefix, events), 0, response);
    events := events + Finishes(0, response);
    Continues(prefix, events, Reads(1, verb, path2, key2));
    ReadReplays(prefix, Reached(prefix, events), 1, verb, path2, key2);
    events := events + Reads(1, verb, path2, key2);
  }

  // ------------------------------------------------- the holder bound is tight

  /** n + 1 requests with one key, the lock expiring between them. */
  function Pile(prefix: string, verb: string, path: string, key: string, n: nat): seq<Event> {
    if n == 0 then Reads(0, verb, path, key) + [Lock(0, Fine)]
    else Pile(prefix, verb, path, key, n - 1) + [Expire(LockKey(prefix, verb, path, key))]
         + Reads(n, verb, path, key) + [Lock(n, Fine)]
  }

  /** The requests 0, ..., n, all running. */
  function AllRunning(verb: string, path: string, key: string, n: nat): map<Id, Request> {
    (if n == 0 then map[] else AllRunning(verb, path, key, n - 1))[n := Request(verb, path, key, Running)]
  }

  lemma {:induction false} AllRunningIds(verb: string, path: string, key: string, n: nat)
    ensures forall id: Id :: id in AllRunning(verb, path, key, n) <==> id <= n
  {
    if n > 0 {
      AllRunningIds(verb, path, key, n - 1);
    }
  }

  /** For every number of expiries there is a run in which the bound on holders is met. */
  lemma {:induction false} HolderBoundIsTight(prefix: string, verb: string, path: string, key: string, n: nat)
    requires Eligible(verb, key)
    ensures var s, lockKey := Reached(prefix, Pile(prefix, verb, path, key, n)), LockKey(prefix, verb, path, key);
      && s.store == map[lockKey := Token] && s.expired[lockKey] == n
      && s.requests == AllRunning(verb, path, key, n)
      && |Holders(prefix, s.requests, lockKey)| == n + 1
  {
    hide Next, CacheKey, LockKey, Eligible, StateAt, Run;
    var lockKey := LockKey(prefix, verb, path, key);
    var rest := Reads(n, verb, path, key) + [Lock(n, Fine)];
    AllHold(prefix, verb, path, key, n);
    if n == 0 {
      StartsAtStart(prefix, rest);
      OneMoreHolder(prefix, START, n, verb, path, key);
    } else {
      HolderBoundIsTight(prefix, verb, path, key, n - 1);
      Expires(prefix, Pile(prefix, verb, path, key, n - 1), lockKey);
      AllRunningIds(verb, path, key, n - 1);
      var soFar := Pile(prefix, verb, path, key, n - 1) + [Expire(lockKey)];
      Continues(prefix, soFar, rest);
      assert Pile(prefix, verb, path, key, n) == soFar + rest;
      OneMoreHolder(prefix, Reached(prefix, soFar), n, verb, path, key);
    }
  }

  lemma Expires(prefix: string, events: seq<Event>, lockKey: string)
    requires Reached(prefix, events).store == map[lockKey := Token]
    ensures var s := Reached(prefix, events);
      Reached(prefix, events + [Expire(lockKey)]) == s.(store := map[], expired := s.expired + multiset{lockKey})
  {
    Continues(prefix, events, [Expire(lockKey)]);
    assert [Expire(lockKey)][1..] == [];
  }

  lemma OneMoreHolder(prefix: string, s: State, id: Id, verb: string, path: string, key: string)
    requires s.store == map[] && id !in s.requests && Eligible(verb, key)
    ensures Run(prefix, s, Reads(id, verb, path, key) + [Lock(id, Fine)]) == s.(
        store := map[LockKey(prefix, verb, path, key) := Token],
        requests := s.requests[id := Request(verb, path, key, Running)])
  {
    hide CacheKey, LockKey, Eligible, Next;
    var pair := Reads(id, verb, path, key);
    ReadMisses(prefix, s, id, verb, path, key);
    var waiting := s.(requests := s.requests[id := Request(verb, path, key, AtLock)]);
    RunTwo(prefix, s, pair[0], pair[1]);
    RunThree(prefix, s, pair[0], pair[1], Lock(id, Fine));
    assert pair + [Lock(id, Fine)] == [pair[0], pair[1], Lock(id, Fine)];
    LockTaken(prefix, waiting, id);
    assert [Lock(id, Fine)][1..] == [];
    assert s.store[LockKey(prefix, verb, path, key) := Token] == map[LockKey(prefix, verb, path, key) := Token];
    assert waiting.requests[id := Request(verb, path, key, Running)] == s.requests[id := Request(verb, path, key, Running)];
  }

  lemma {:induction false} AllHold(prefix: string, verb: string, path: string, key: string, n: nat)
    ensures |Holders(prefix, AllRunning(verb, path, key, n), LockKey(prefix, verb, path, key))| == n + 1
  {
    hide LockKey, CacheKey;
    AllRunningIds(verb, path, key, n);
    var lockKey := LockKey(prefix, verb, path, key);
    var holders := Holders(prefix, AllRunning(verb, path, key, n), lockKey);
    if n == 0 {
      assert holders == {0};
    } else {
      AllHold(prefix, verb, path, key, n - 1);
      AllRunningIds(verb, path, key, n - 1);
      var fewer := Holders(prefix, AllRunning(verb, path, key, n - 1), lockKey);
      assert holders == fewer + {n};
    }
  }
}
