/** The idempotency middleware as a protocol: any number of concurrent requests over one shared Redis,
    where every command may fail, keys may expire at any time and handlers may panic. */
module IdempotencyProtocol {
  import opened Common
  import opened IdempotencyKeys
  import opened Recorder

  /** What Redis holds under a key: the lock token "1", or a stored response. Reading a token as a
      response is a decoding error, which the middleware treats like a miss. */
  datatype Value = Token | Stored(response: CachedResponse)

  datatype Outcome =
    | Bypassed
    | Replayed(response: CachedResponse)
    | Conflict
    | LockUnavailable
    | Executed(response: CachedResponse)
    | Panicked

  /** Where a request is: the next thing it does. */
  datatype Pc =
    | AtGet
    | AtLock
    | Running
    | AtPut(response: CachedResponse)
    | AtUnlock(result: Outcome)
    | Done(result: Outcome)

  type Id = nat

  datatype Request = Request(verb: string, path: string, key: string, pc: Pc)

  /** How a write to Redis fares; a failed one may or may not have been carried out. */
  datatype Fault = Fine | NotApplied | Applied

  datatype HandlerResult = Returned(response: CachedResponse) | Panics

  datatype Event =
    | Arrive(id: Id, verb: string, path: string, key: string)
    | Get(id: Id, ok: bool)
    | Lock(id: Id, fault: Fault)
    | Handle(id: Id, result: HandlerResult)
    | Put(id: Id, fault: Fault)
    | Unlock(id: Id, fault: Fault)
    | Expire(storeKey: string)

  /** One completed run of the handler under the lock. */
  datatype Execution = Execution(id: Id, verb: string, path: string, key: string, response: CachedResponse)

  type Redis = map<string, Value>

  /** The system, with the history the theorems are about: every expiry and every execution so far. */
  datatype State = State(
    store: Redis,
    requests: map<Id, Request>,
    expired: multiset<string>,
    executions: set<Execution>)

  const START := State(map[], map[], multiset{}, {})

  function Cache(prefix: string, r: Request): string {
    CacheKey(prefix, r.verb, r.path, r.key)
  }

  function LockOf(prefix: string, r: Request): string {
    LockKey(prefix, r.verb, r.path, r.key)
  }

  predicate HasResponse(store: Redis, storeKey: string) {
    storeKey in store && store[storeKey].Stored?
  }

  predicate IsAt(s: State, id: Id, pc: Pc) {
    id in s.requests && s.requests[id].pc == pc
  }

  function Move(s: State, id: Id, pc: Pc): State
    requires id in s.requests
  {
    s.(requests := s.requests[id := s.requests[id].(pc := pc)])
  }

  // --------------------------------------------------------------- the steps

  function DoArrive(s: State, id: Id, verb: string, path: string, key: string): State {
    s.(requests := s.requests[id := Request(verb, path, key, if Eligible(verb, key) then AtGet else Done(Bypassed))])
  }

  /** A read error and an undecodable value both fall through to the lock. */
  function DoGet(prefix: string, s: State, id: Id, ok: bool): State
    requires id in s.requests
  {
    var cacheKey := Cache(prefix, s.requests[id]);
    if ok && HasResponse(s.store, cacheKey) then Move(s, id, Done(Replayed(s.store[cacheKey].response)))
    else Move(s, id, AtLock)
  }

  /** SETNX. The cache is not read again once the lock is held. */
  function DoLock(prefix: string, s: State, id: Id, fault: Fault): State
    requires id in s.requests
  {
    var lockKey := LockOf(prefix, s.requests[id]);
    var free := lockKey !in s.store;
    var locked := if free && fault != NotApplied then s.(store := s.store[lockKey := Token]) else s;
    if fault != Fine then Move(locked, id, Done(LockUnavailable))
    else if free then Move(locked, id, Running)
    else Move(locked, id, Done(Conflict))
  }

  function DoHandle(s: State, id: Id, result: HandlerResult): State
    requires id in s.requests
  {
    match result
    case Panics => Move(s, id, AtUnlock(Panicked))
    case Returned(response) =>
      var r := s.requests[id];
      var logged := s.(executions := s.executions + {Execution(id, r.verb, r.path, r.key, response)});
      Move(logged, id, if Successful(response.status) then AtPut(response) else AtUnlock(Executed(response)))
  }

  function DoPut(prefix: string, s: State, id: Id, fault: Fault): State
    requires id in s.requests && s.requests[id].pc.AtPut?
  {
    var response := s.requests[id].pc.response;
    var stored := if fault == NotApplied then s
                  else s.(store := s.store[Cache(prefix, s.requests[id]) := Stored(response)]);
    Move(stored, id, AtUnlock(Executed(response)))
  }

  /** The deferred DEL, which does not check whose lock it removes. */
  function DoUnlock(prefix: string, s: State, id: Id, fault: Fault): State
    requires id in s.requests && s.requests[id].pc.AtUnlock?
  {
    var freed := if fault == NotApplied then s else s.(store := s.store - {LockOf(prefix, s.requests[id])});
    Move(freed, id, Done(s.requests[id].pc.result))
  }

  /** One atomic step; an event that is not enabled changes nothing. */
  function Next(prefix: string, s: State, e: Event): State {
    match e
    case Arrive(id, verb, path, key) => if id in s.requests then s else DoArrive(s, id, verb, path, key)
    case Get(id, ok) => if IsAt(s, id, AtGet) then DoGet(prefix, s, id, ok) else s
    case Lock(id, fault) => if IsAt(s, id, AtLock) then DoLock(prefix, s, id, fault) else s
    case Handle(id, result) => if IsAt(s, id, Running) then DoHandle(s, id, result) else s
    case Put(id, fault) =>
      if id in s.requests && s.requests[id].pc.AtPut? then DoPut(prefix, s, id, fault) else s
    case Unlock(id, fault) =>
      if id in s.requests && s.requests[id].pc.AtUnlock? then DoUnlock(prefix, s, id, fault) else s
    case Expire(storeKey) =>
      if storeKey in s.store then s.(store := s.store - {storeKey}, expired := s.expired + multiset{storeKey}) else s
  }

  /** The state after the first n events: every interleaving is some sequence of events. */
  function StateAt(prefix: string, events: seq<Event>, n: nat): State
    requires n <= |events|
  {
    if n == 0 then START else Next(prefix, StateAt(prefix, events, n - 1), events[n - 1])
  }

  // --------------------------------------------------- who holds the lock

  /** Between a successful SETNX and the DEL. */
  predicate Holding(pc: Pc) {
    pc.Running? || pc.AtPut? || pc.AtUnlock?
  }

  function Holders(prefix: string, requests: map<Id, Request>, lockKey: string): set<Id> {
    set id | id in requests && Holding(requests[id].pc) && LockOf(prefix, requests[id]) == lockKey
  }

  predicate HolderBound(prefix: string, s: State, lockKey: string) {
    |Holders(prefix, s.requests, lockKey)| <= (if lockKey in s.store then 1 else 0) + s.expired[lockKey]
  }

  lemma HoldersUpdate(prefix: string, requests: map<Id, Request>, id: Id, r: Request, lockKey: string)
    requires id in requests ==> LockOf(prefix, requests[id]) == LockOf(prefix, r)
    ensures var before, after := Holders(prefix, requests, lockKey), Holders(prefix, requests[id := r], lockKey);
      after == if Holding(r.pc) && LockOf(prefix, r) == lockKey then before + {id} else before - {id}
    ensures id in Holders(prefix, requests, lockKey)
            <==> id in requests && Holding(requests[id].pc) && LockOf(prefix, r) == lockKey
  {
    hide LockOf;
  }

  /** No event breaks the bound: acquiring needs an absent lock, deleting gives a holder back,
      and an expiry is counted. */
  lemma StepKeepsHolderBound(prefix: string, s: State, e: Event, lockKey: string)
    requires HolderBound(prefix, s, lockKey)
    ensures HolderBound(prefix, Next(prefix, s, e), lockKey)
  {
    var next := Next(prefix, s, e);
    if !e.Expire? {
      HoldersAfterStep(prefix, s, e, lockKey);
    }
    hide LockOf, Cache, Holders;
  }

  /** How a step of one request changes the set of holders and the presence of the lock. */
  lemma {:induction false} HoldersAfterStep(prefix: string, s: State, e: Event, lockKey: string)
    requires !e.Expire?
    ensures var next := Next(prefix, s, e);
      var before, after := Holders(prefix, s.requests, lockKey), Holders(prefix, next.requests, lockKey);
      && next.expired == s.expired
      && ((after == before && (lockKey in s.store ==> lockKey in next.store))
          || (after == before + {e.id} && lockKey !in s.store && lockKey in next.store)
          || (e.id in before && after == before - {e.id}))
  {
    hide LockOf, Cache, Holders, Eligible;
    var next := Next(prefix, s, e);
    if next.requests != s.requests {
      StepUpdatesOne(prefix, s, e);
      HoldersUpdate(prefix, s.requests, e.id, next.requests[e.id], lockKey);
    }
  }

  lemma StepUpdatesOne(prefix: string, s: State, e: Event)
    requires Next(prefix, s, e).requests != s.requests
    ensures !e.Expire? && e.id in Next(prefix, s, e).requests
    ensures Next(prefix, s, e).requests == s.requests[e.id := Next(prefix, s, e).requests[e.id]]
    ensures e.id in s.requests ==> LockOf(prefix, s.requests[e.id]) == LockOf(prefix, Next(prefix, s, e).requests[e.id])
  {
    hide Cache, Eligible;
  }

  /** In every reachable state, whatever expires, fails or panics, the requests between SETNX and DEL
      on one lock are at most one for the lock present and one for each of its expiries so far. */
  lemma {:induction false} HoldersAreBounded(prefix: string, events: seq<Event>, n: nat, lockKey: string)
    requires n <= |events|
    ensures HolderBound(prefix, StateAt(prefix, events, n), lockKey)
  {
    if n > 0 {
      HoldersAreBounded(prefix, events, n - 1, lockKey);
      StepKeepsHolderBound(prefix, StateAt(prefix, events, n - 1), events[n - 1], lockKey);
    }
  }

  /** As long as the lock has not expired, two requests never hold it at once. */
  lemma MutualExclusion(prefix: string, events: seq<Event>, n: nat, lockKey: string, a: Id, b: Id)
    requires n <= |events|
    requires StateAt(prefix, events, n).expired[lockKey] == 0
    requires a in Holders(prefix, StateAt(prefix, events, n).requests, lockKey)
    requires b in Holders(prefix, StateAt(prefix, events, n).requests, lockKey)
    ensures a == b
  {
    HoldersAreBounded(prefix, events, n, lockKey);
    if a != b {
      SubsetSize({a, b}, Holders(prefix, StateAt(prefix, events, n).requests, lockKey));
    }
  }

  lemma SubsetSize(a: set<Id>, b: set<Id>)
    requires a <= b
    ensures |a| <= |b|
  {
    assert b == a + (b - a);
  }

  // ----------------------------------------------- identity and eligibility

  /** A request keeps its identity, and is never forgotten. */
  lemma StepKeepsIdentity(prefix: string, s: State, e: Event, id: Id)
    requires id in s.requests
    ensures var next := Next(prefix, s, e);
      && id in next.requests
      && next.requests[id].(pc := s.requests[id].pc) == s.requests[id]
  {
    hide LockOf, Cache;
  }

  predicate OnlyEligible(s: State) {
    forall id :: id in s.requests && s.requests[id].pc != Done(Bypassed) ==>
      Eligible(s.requests[id].verb, s.requests[id].key)
  }

  lemma {:induction false} ProtocolIsForEligible(prefix: string, events: seq<Event>, n: nat)
    requires n <= |events|
    ensures OnlyEligible(StateAt(prefix, events, n))
  {
    hide Next, OnlyEligible;
    if n > 0 {
      ProtocolIsForEligible(prefix, events, n - 1);
      StepKeepsEligible(prefix, StateAt(prefix, events, n - 1), events[n - 1]);
    } else {
      NobodyAtStart();
    }
  }

  lemma NobodyAtStart()
    ensures OnlyEligible(START)
  {
  }

  lemma StepKeepsEligible(prefix: string, s: State, e: Event)
    requires OnlyEligible(s)
    ensures OnlyEligible(Next(prefix, s, e))
  {
    hide Eligible, LockOf, Cache;
  }

  // ------------------------------------------------------- late executions

  predicate Ran(pc: Pc) {
    Holding(pc) || (pc.Done? && (pc.result.Executed? || pc.result.Panicked?))
  }

  /** The requests for a cache key whose handler has started. */
  function RanFor(prefix: string, s: State, cacheKey: string): set<Id> {
    set id | id in s.requests && Ran(s.requests[id].pc) && Cache(prefix, s.requests[id]) == cacheKey
  }

  /** The requests for a cache key whose read has missed and that have not tried the lock yet. */
  function WaitingFor(prefix: string, s: State, cacheKey: string): set<Id> {
    set id | id in s.requests && s.requests[id].pc == AtLock && Cache(prefix, s.requests[id]) == cacheKey
  }

  /** This event is a failed read of this cache key. */
  predicate ReadFails(prefix: string, s: State, e: Event, cacheKey: string) {
    e.Get? && !e.ok && IsAt(s, e.id, AtGet) && Cache(prefix, s.requests[e.id]) == cacheKey
  }

  /** Reads of this cache key succeed between events i and j; others may fail. */
  predicate ReliableReads(prefix: string, events: seq<Event>, i: nat, j: nat, cacheKey: string)
    requires i <= j <= |events|
  {
    forall m :: i <= m < j ==> !ReadFails(prefix, StateAt(prefix, events, m), events[m], cacheKey)
  }

  /** A response is stored under the key in every state from i to j. */
  predicate StoredThroughout(prefix: string, events: seq<Event>, i: nat, j: nat, cacheKey: string)
    requires i <= j <= |events|
  {
    forall m :: i <= m <= j ==> HasResponse(StateAt(prefix, events, m).store, cacheKey)
  }

  predicate MissesNow(prefix: string, s: State, e: Event, id: Id)
    requires id in s.requests
  {
    && s.requests[id].pc == AtGet && e.Get? && e.id == id
    && !(e.ok && HasResponse(s.store, Cache(prefix, s.requests[id])))
  }

  /** A request comes to the lock only by missing, and to the handler only from the lock. */
  lemma StepProgress(prefix: string, s: State, e: Event, id: Id)
    requires id in Next(prefix, s, e).requests
    ensures var r := Next(prefix, s, e).requests[id];
      && (Ran(r.pc) ==> id in s.requests && (Ran(s.requests[id].pc) || s.requests[id].pc == AtLock))
      && (r.pc == AtLock ==> id in s.requests && (s.requests[id].pc == AtLock || MissesNow(prefix, s, e, id)))
    ensures id in s.requests ==> Cache(prefix, Next(prefix, s, e).requests[id]) == Cache(prefix, s.requests[id])
  {
    if id in s.requests {
      StepKeepsIdentity(prefix, s, e, id);
    }
    hide LockOf;
  }

  lemma StepLate(prefix: string, s: State, e: Event, cacheKey: string)
    requires HasResponse(s.store, cacheKey) && !ReadFails(prefix, s, e, cacheKey)
    ensures var next := Next(prefix, s, e);
      && WaitingFor(prefix, next, cacheKey) <= WaitingFor(prefix, s, cacheKey)
      && RanFor(prefix, next, cacheKey) <= RanFor(prefix, s, cacheKey) + WaitingFor(prefix, s, cacheKey)
  {
    hide Next, Cache, Ran;
    var next := Next(prefix, s, e);
    forall id | id in next.requests && Cache(prefix, next.requests[id]) == cacheKey
      ensures next.requests[id].pc == AtLock ==> id in WaitingFor(prefix, s, cacheKey)
      ensures Ran(next.requests[id].pc) ==> id in RanFor(prefix, s, cacheKey) + WaitingFor(prefix, s, cacheKey)
    {
      StepProgress(prefix, s, e, id);
    }
  }

  /** While a response is stored, nobody new comes to wait for the lock, and every handler that
      starts is run by a request whose own read had missed before. */
  lemma {:induction false} LateRunsHadMissed(prefix: string, events: seq<Event>, i: nat, j: nat, cacheKey: string)
    requires i <= j <= |events| && ReliableReads(prefix, events, i, j, cacheKey)
    requires StoredThroughout(prefix, events, i, j, cacheKey)
    ensures var then_, now := StateAt(prefix, events, i), StateAt(prefix, events, j);
      && WaitingFor(prefix, now, cacheKey) <= WaitingFor(prefix, then_, cacheKey)
      && RanFor(prefix, now, cacheKey) - RanFor(prefix, then_, cacheKey) <= WaitingFor(prefix, then_, cacheKey)
  {
    hide Next, Cache, WaitingFor, RanFor, HasResponse, ReadFails;
    if i < j {
      LateRunsHadMissed(prefix, events, i, j - 1, cacheKey);
      StepLate(prefix, StateAt(prefix, events, j - 1), events[j - 1], cacheKey);
    }
  }

  // -------------------------------------------------- retention and retries

  predicate NoExpiryOf(events: seq<Event>, i: nat, j: nat, storeKey: string)
    requires i <= j <= |events|
  {
    forall m :: i <= m < j ==> events[m] != Expire(storeKey)
  }

  /** Only its own expiry removes a stored response whose key is nobody's lock. */
  lemma StepKeepsResponse(prefix: string, s: State, e: Event, cacheKey: string)
    requires HasResponse(s.store, cacheKey) && e != Expire(cacheKey)
    requires OnlyEligible(s) && !Aliased(prefix, cacheKey)
    ensures HasResponse(Next(prefix, s, e).store, cacheKey)
  {
    if e.Unlock? && e.id in s.requests && s.requests[e.id].pc.AtUnlock? {
      var r := s.requests[e.id];
      assert Eligible(r.verb, r.key);
      assert LockKey(prefix, r.verb, r.path, r.key) != cacheKey;
    }
    hide Cache, LockKey, CacheKey;
  }

  lemma {:induction false} ResponseIsRetained(prefix: string, events: seq<Event>, i: nat, j: nat, cacheKey: string)
    requires i <= j <= |events| && NoExpiryOf(events, i, j, cacheKey) && !Aliased(prefix, cacheKey)
    requires HasResponse(StateAt(prefix, events, i).store, cacheKey)
    ensures StoredThroughout(prefix, events, i, j, cacheKey)
  {
    hide Aliased, OnlyEligible, HasResponse, Next;
    if i < j {
      ResponseIsRetained(prefix, events, i, j - 1, cacheKey);
      ProtocolIsForEligible(prefix, events, j - 1);
      assert HasResponse(StateAt(prefix, events, j - 1).store, cacheKey);
      StepKeepsResponse(prefix, StateAt(prefix, events, j - 1), events[j - 1], cacheKey);
    }
  }

  /** Where a request is that has arrived after the response was stored: only one that is not for the
      middleware is bypassed. */
  predicate ReplayedOrReading(r: Request) {
    if Eligible(r.verb, r.key) then r.pc == AtGet || (r.pc.Done? && r.pc.result.Replayed?) else r.pc == Done(Bypassed)
  }

  lemma {:induction false} LateArrivalsAreReplayed(prefix: string, events: seq<Event>, i: nat, j: nat, cacheKey: string, id: Id)
    requires i <= j <= |events| && ReliableReads(prefix, events, i, j, cacheKey)
    requires StoredThroughout(prefix, events, i, j, cacheKey)
    requires id !in StateAt(prefix, events, i).requests
    requires id in StateAt(prefix, events, j).requests && Cache(prefix, StateAt(prefix, events, j).requests[id]) == cacheKey
    ensures ReplayedOrReading(StateAt(prefix, events, j).requests[id])
  {
    hide Cache, Next, HasResponse, ReplayedOrReading;
    if i < j {
      var s := StateAt(prefix, events, j - 1);
      assert HasResponse(s.store, cacheKey);
      if id in s.requests {
        StepProgress(prefix, s, events[j - 1], id);
        LateArrivalsAreReplayed(prefix, events, i, j - 1, cacheKey, id);
      }
      StepForLateArrival(prefix, s, events[j - 1], cacheKey, id);
    }
  }

  /** Once a response is stored, and until it expires, a request for it that arrives afterwards never
      runs its handler or conflicts: it is replayed. The key must not be the lock key of another. */
  lemma {:induction false} RetriesAreReplayed(prefix: string, events: seq<Event>, i: nat, j: nat, cacheKey: string, id: Id)
    requires i <= j <= |events| && ReliableReads(prefix, events, i, j, cacheKey) && NoExpiryOf(events, i, j, cacheKey)
    requires HasResponse(StateAt(prefix, events, i).store, cacheKey) && !Aliased(prefix, cacheKey)
    requires id !in StateAt(prefix, events, i).requests
    requires id in StateAt(prefix, events, j).requests && Cache(prefix, StateAt(prefix, events, j).requests[id]) == cacheKey
    ensures ReplayedOrReading(StateAt(prefix, events, j).requests[id])
    ensures !Ran(StateAt(prefix, events, j).requests[id].pc)
  {
    ResponseIsRetained(prefix, events, i, j, cacheKey);
    LateArrivalsAreReplayed(prefix, events, i, j, cacheKey, id);
  }

  /** A request arrives before its read, and a reliable read of a stored response replays it. */
  lemma StepForLateArrival(prefix: string, s: State, e: Event, cacheKey: string, id: Id)
    requires HasResponse(s.store, cacheKey) && !ReadFails(prefix, s, e, cacheKey)
    requires id in Next(prefix, s, e).requests && Cache(prefix, Next(prefix, s, e).requests[id]) == cacheKey
    requires id in s.requests ==> ReplayedOrReading(s.requests[id])
    ensures ReplayedOrReading(Next(prefix, s, e).requests[id])
  {
    if id in s.requests {
      StepProgress(prefix, s, e, id);
      StepKeepsIdentity(prefix, s, e, id);
    }
    hide Cache, LockOf, Eligible;
  }

  // ------------------------------------------------- which response it is

  /** No request for the cache key is on its way from a miss to a stored response. */
  predicate NoneInFlight(prefix: string, s: State, cacheKey: string) {
    forall id :: id in s.requests && Cache(prefix, s.requests[id]) == cacheKey ==> !InFlight(s.requests[id].pc)
  }

  predicate InFlight(pc: Pc) {
    pc == AtLock || pc == Running || pc.AtPut?
  }

  predicate Settled(prefix: string, s: State, cacheKey: string, response: CachedResponse) {
    cacheKey in s.store && s.store[cacheKey] == Stored(response) && NoneInFlight(prefix, s, cacheKey)
  }

  /** With nobody in flight nothing can replace the response, and a read that hits does not start a flight. */
  lemma {:induction false} StepKeepsSettled(prefix: string, s: State, e: Event, cacheKey: string, response: CachedResponse)
    requires Settled(prefix, s, cacheKey, response) && OnlyEligible(s) && !Aliased(prefix, cacheKey)
    requires e != Expire(cacheKey) && !ReadFails(prefix, s, e, cacheKey)
    ensures Settled(prefix, Next(prefix, s, e), cacheKey, response)
  {
    var next := Next(prefix, s, e);
    StepKeepsResponse(prefix, s, e, cacheKey);
    StepStores(prefix, s, e, cacheKey);
    forall id | id in next.requests && Cache(prefix, next.requests[id]) == cacheKey
      ensures !InFlight(next.requests[id].pc)
    {
      FlightStarts(prefix, s, e, id);
    }
    hide Next, Cache, OnlyEligible, Aliased;
  }

  /** A request is in flight because it was, or because it misses now. */
  lemma FlightStarts(prefix: string, s: State, e: Event, id: Id)
    requires id in Next(prefix, s, e).requests
    ensures InFlight(Next(prefix, s, e).requests[id].pc) ==>
              id in s.requests && (InFlight(s.requests[id].pc) || MissesNow(prefix, s, e, id))
    ensures id in s.requests ==> Cache(prefix, Next(prefix, s, e).requests[id]) == Cache(prefix, s.requests[id])
  {
    StepProgress(prefix, s, e, id);
    hide Cache, LockOf, Eligible;
  }

  lemma {:induction false} StaysSettled(
      prefix: string, events: seq<Event>, i: nat, j: nat, cacheKey: string, response: CachedResponse)
    requires i <= j <= |events| && ReliableReads(prefix, events, i, j, cacheKey) && NoExpiryOf(events, i, j, cacheKey)
    requires Settled(prefix, StateAt(prefix, events, i), cacheKey, response) && !Aliased(prefix, cacheKey)
    ensures Settled(prefix, StateAt(prefix, events, j), cacheKey, response)
  {
    hide Next, Settled, Aliased, OnlyEligible;
    if i < j {
      StaysSettled(prefix, events, i, j - 1, cacheKey, response);
      ProtocolIsForEligible(prefix, events, j - 1);
      StepKeepsSettled(prefix, StateAt(prefix, events, j - 1), events[j - 1], cacheKey, response);
    }
  }

  /** Whose read is still to come: it is to be replayed with this response, and with no other. */
  predicate Reader(r: Request, response: CachedResponse) {
    Eligible(r.verb, r.key) ==> r.pc == AtGet || r.pc == Done(Replayed(response))
  }

  lemma StepKeepsReader(prefix: string, s: State, e: Event, cacheKey: string, response: CachedResponse, id: Id)
    requires Settled(prefix, s, cacheKey, response) && !ReadFails(prefix, s, e, cacheKey)
    requires id in Next(prefix, s, e).requests && Cache(prefix, Next(prefix, s, e).requests[id]) == cacheKey
    requires id in s.requests ==> Reader(s.requests[id], response)
    ensures Reader(Next(prefix, s, e).requests[id], response)
  {
    if id in s.requests {
      StepKeepsIdentity(prefix, s, e, id);
      assert Cache(prefix, s.requests[id]) == cacheKey;
    }
    hide Cache, LockOf, Eligible, NoneInFlight;
  }

  /** Once a response is stored and nobody for its key is between a miss and a store, every request for it
      that has yet to read, now or later, is replayed with this very response until it expires. */
  lemma {:induction false} SettledIsReplayed(
      prefix: string, events: seq<Event>, i: nat, j: nat, cacheKey: string, response: CachedResponse, id: Id)
    requires i <= j <= |events| && ReliableReads(prefix, events, i, j, cacheKey) && NoExpiryOf(events, i, j, cacheKey)
    requires Settled(prefix, StateAt(prefix, events, i), cacheKey, response) && !Aliased(prefix, cacheKey)
    requires id in StateAt(prefix, events, i).requests ==> StateAt(prefix, events, i).requests[id].pc == AtGet
    requires id in StateAt(prefix, events, j).requests && Cache(prefix, StateAt(prefix, events, j).requests[id]) == cacheKey
    ensures Reader(StateAt(prefix, events, j).requests[id], response)
  {
    hide Cache, Next, Settled, Reader, Aliased;
    if i < j {
      var s := StateAt(prefix, events, j - 1);
      StaysSettled(prefix, events, i, j - 1, cacheKey, response);
      if id in s.requests {
        StepKeepsIdentity(prefix, s, events[j - 1], id);
        SameCache(prefix, s.requests[id], StateAt(prefix, events, j).requests[id]);
        SettledIsReplayed(prefix, events, i, j - 1, cacheKey, response, id);
      }
      StepKeepsReader(prefix, s, events[j - 1], cacheKey, response, id);
    } else {
      AtGetIsReader(StateAt(prefix, events, j).requests[id], response);
    }
  }

  lemma SameCache(prefix: string, a: Request, b: Request)
    requires b.(pc := a.pc) == a
    ensures Cache(prefix, a) == Cache(prefix, b)
  {
  }

  lemma AtGetIsReader(r: Request, response: CachedResponse)
    requires r.pc == AtGet
    ensures Reader(r, response)
  {
  }

  // ------------------------------------------------------------- provenance

  /** Some execution for this cache key succeeded with this response. */
  ghost predicate Produced(prefix: string, s: State, cacheKey: string, response: CachedResponse) {
    Successful(response.status) && exists x :: x in s.executions && ProducedBy(prefix, s, cacheKey, response, x)
  }

  predicate ProducedBy(prefix: string, s: State, cacheKey: string, response: CachedResponse, x: Execution) {
    && x.response == response
    && CacheKey(prefix, x.verb, x.path, x.key) == cacheKey
    && x.id in s.requests && Eligible(x.verb, x.key)
  }

  /** Every response stored, on its way to be stored, or replayed, was produced. */
  ghost predicate Provenance(prefix: string, s: State) {
    && (forall k :: HasResponse(s.store, k) ==> Produced(prefix, s, k, s.store[k].response))
    && (forall id :: id in s.requests && s.requests[id].pc.AtPut? ==>
          Produced(prefix, s, Cache(prefix, s.requests[id]), s.requests[id].pc.response))
    && (forall id :: id in s.requests && s.requests[id].pc.Done? && s.requests[id].pc.result.Replayed? ==>
          Produced(prefix, s, Cache(prefix, s.requests[id]), s.requests[id].pc.result.response))
  }

  lemma ProducedStays(prefix: string, s: State, e: Event, cacheKey: string, response: CachedResponse)
    requires Produced(prefix, s, cacheKey, response)
    ensures Produced(prefix, Next(prefix, s, e), cacheKey, response)
  {
    var x :| x in s.executions && ProducedBy(prefix, s, cacheKey, response, x);
    StepKeepsIdentity(prefix, s, e, x.id);
    ExecutionsStay(prefix, s, e);
    hide Next, CacheKey, Eligible;
    assert x in Next(prefix, s, e).executions && ProducedBy(prefix, Next(prefix, s, e), cacheKey, response, x);
  }

  lemma ExecutionsStay(prefix: string, s: State, e: Event)
    ensures s.executions <= Next(prefix, s, e).executions
  {
  }

  /** What a step can put into the store under a key. */
  lemma StepStores(prefix: string, s: State, e: Event, k: string)
    requires HasResponse(Next(prefix, s, e).store, k)
    ensures var response := Next(prefix, s, e).store[k].response;
      || (HasResponse(s.store, k) && s.store[k].response == response)
      || (e.Put? && IsAt(s, e.id, AtPut(response)) && Cache(prefix, s.requests[e.id]) == k)
  {
    hide Cache, LockOf;
  }

  predicate RespondsNow(s: State, e: Event, id: Id, response: CachedResponse)
    requires id in s.requests
  {
    e == Handle(id, Returned(response)) && s.requests[id].pc == Running && Successful(response.status)
  }

  predicate ReadsNow(prefix: string, s: State, id: Id, response: CachedResponse)
    requires id in s.requests
  {
    var cacheKey := Cache(prefix, s.requests[id]);
    HasResponse(s.store, cacheKey) && s.store[cacheKey].response == response
  }

  /** How a request comes to have a response to store or to replay. */
  lemma StepResponds(prefix: string, s: State, e: Event, id: Id)
    requires id in Next(prefix, s, e).requests
    ensures var pc := Next(prefix, s, e).requests[id].pc;
      pc.AtPut? ==> id in s.requests && (s.requests[id].pc == pc || RespondsNow(s, e, id, pc.response))
    ensures var pc := Next(prefix, s, e).requests[id].pc;
      pc.Done? && pc.result.Replayed? ==>
        id in s.requests && (s.requests[id].pc == pc || s.requests[id].pc.AtUnlock? || ReadsNow(prefix, s, id, pc.result.response))
  {
    hide Cache, LockOf, Eligible;
  }

  /** What is waiting to be reported after the unlock is an execution or a panic. */
  predicate UnlocksReport(s: State) {
    forall id :: id in s.requests && s.requests[id].pc.AtUnlock? ==>
      s.requests[id].pc.result.Executed? || s.requests[id].pc.result.Panicked?
  }

  lemma StepKeepsUnlocksReport(prefix: string, s: State, e: Event)
    requires UnlocksReport(s)
    ensures UnlocksReport(Next(prefix, s, e))
  {
    hide Cache, LockOf, Eligible;
  }

  /** A step of a request that is about to unlock does not replay anything. */
  lemma UnlockDoesNotReplay(prefix: string, s: State, e: Event, id: Id)
    requires UnlocksReport(s) && id in s.requests && s.requests[id].pc.AtUnlock?
    ensures id in Next(prefix, s, e).requests
    ensures var pc := Next(prefix, s, e).requests[id].pc; !(pc.Done? && pc.result.Replayed?)
  {
    hide Cache, LockOf, Eligible;
  }

  lemma HandlerProduces(prefix: string, s: State, id: Id, response: CachedResponse)
    requires OnlyEligible(s) && IsAt(s, id, Running) && Successful(response.status)
    ensures Produced(prefix, Next(prefix, s, Handle(id, Returned(response))), Cache(prefix, s.requests[id]), response)
  {
    var r := s.requests[id];
    var next := Next(prefix, s, Handle(id, Returned(response)));
    assert Eligible(r.verb, r.key);
    var x := Execution(id, r.verb, r.path, r.key, response);
    assert x in next.executions && ProducedBy(prefix, next, Cache(prefix, r), response, x);
  }

  lemma {:induction false} StepKeepsProvenance(prefix: string, s: State, e: Event)
    requires Provenance(prefix, s) && OnlyEligible(s) && UnlocksReport(s)
    ensures Provenance(prefix, Next(prefix, s, e))
  {
    hide Cache, Next, Produced, OnlyEligible, UnlocksReport;
    var next := Next(prefix, s, e);
    forall k | HasResponse(next.store, k)
      ensures Produced(prefix, next, k, next.store[k].response)
    {
      StepStores(prefix, s, e, k);
      ProducedStays(prefix, s, e, k, next.store[k].response);
    }
    forall id | id in next.requests && next.requests[id].pc.AtPut?
      ensures Produced(prefix, next, Cache(prefix, next.requests[id]), next.requests[id].pc.response)
    {
      var response := next.requests[id].pc.response;
      StepResponds(prefix, s, e, id);
      StepProgress(prefix, s, e, id);
      if s.requests[id].pc == next.requests[id].pc {
        ProducedStays(prefix, s, e, Cache(prefix, s.requests[id]), response);
      } else {
        HandlerProduces(prefix, s, id, response);
      }
    }
    forall id | id in next.requests && next.requests[id].pc.Done? && next.requests[id].pc.result.Replayed?
      ensures Produced(prefix, next, Cache(prefix, next.requests[id]), next.requests[id].pc.result.response)
    {
      StepResponds(prefix, s, e, id);
      StepProgress(prefix, s, e, id);
      if s.requests[id].pc.AtUnlock? {
        UnlockDoesNotReplay(prefix, s, e, id);
      } else {
        ProducedStays(prefix, s, e, Cache(prefix, s.requests[id]), next.requests[id].pc.result.response);
      }
    }
  }

  lemma {:induction false} ProvenanceHolds(prefix: string, events: seq<Event>, n: nat)
    requires n <= |events|
    ensures Provenance(prefix, StateAt(prefix, events, n)) && UnlocksReport(StateAt(prefix, events, n))
  {
    hide Next, Produced, OnlyEligible;
    if n > 0 {
      ProvenanceHolds(prefix, events, n - 1);
      ProtocolIsForEligible(prefix, events, n - 1);
      StepKeepsProvenance(prefix, StateAt(prefix, events, n - 1), events[n - 1]);
      StepKeepsUnlocksReport(prefix, StateAt(prefix, events, n - 1), events[n - 1]);
    }
  }

  /** Every replayed response was recorded, with a 2xx status, by an execution for the same method and
      the same path:key; if paths hold no colon, for the same path and the same key. */
  lemma ReplaysWereExecuted(prefix: string, events: seq<Event>, n: nat, id: Id) returns (x: Execution)
    requires n <= |events| && id in StateAt(prefix, events, n).requests
    requires StateAt(prefix, events, n).requests[id].pc.Done?
    requires StateAt(prefix, events, n).requests[id].pc.result.Replayed?
    ensures var s := StateAt(prefix, events, n);
      var r := s.requests[id];
      && x in s.executions && x.response == r.pc.result.response && Successful(x.response.status)
      && x.verb == r.verb && x.path + ":" + x.key == r.path + ":" + r.key
      && (ColonFree(x.path) && ColonFree(r.path) ==> x.path == r.path && x.key == r.key)
  {
    ProvenanceHolds(prefix, events, n);
    ProtocolIsForEligible(prefix, events, n);
    var s := StateAt(prefix, events, n);
    var r := s.requests[id];
    x :| x in s.executions && ProducedBy(prefix, s, Cache(prefix, r), r.pc.result.response, x);
    CacheKeysCollide(prefix, x.verb, x.path, x.key, r.verb, r.path, r.key);
    if ColonFree(x.path) && ColonFree(r.path) {
      CacheKeyInjective(prefix, x.verb, x.path, x.key, r.verb, r.path, r.key);
    }
  }

  // --------------------------------------------------------------- conflicts

  /** This event sets the lock, but tells the request otherwise, or loses the DEL of the lock. */
  predicate LosesLock(prefix: string, s: State, e: Event, lockKey: string) {
    || (e.Lock? && e.fault == Applied && IsAt(s, e.id, AtLock) && LockOf(prefix, s.requests[e.id]) == lockKey)
    || (e.Unlock? && e.fault == NotApplied && e.id in Holders(prefix, s.requests, lockKey))
  }

  /** No command on this lock is lost before event n; those on others may be. */
  predicate NoLockLost(prefix: string, events: seq<Event>, n: nat, lockKey: string)
    requires n <= |events|
  {
    forall m :: 0 <= m < n ==> !LosesLock(prefix, StateAt(prefix, events, m), events[m], lockKey)
  }

  predicate TokenHeld(prefix: string, s: State, lockKey: string) {
    lockKey in s.store && s.store[lockKey].Token? ==> Holders(prefix, s.requests, lockKey) != {}
  }

  /** A token was there, or is set by a request that holds the lock from now on. */
  lemma StepSetsToken(prefix: string, s: State, e: Event, lockKey: string)
    requires !LosesLock(prefix, s, e, lockKey)
    requires var next := Next(prefix, s, e); lockKey in next.store && next.store[lockKey].Token?
    ensures (lockKey in s.store && s.store[lockKey].Token?)
            || (e.Lock? && e.id in Holders(prefix, Next(prefix, s, e).requests, lockKey))
  {
    if e.Lock? && e.id in s.requests {
      StepKeepsIdentity(prefix, s, e, e.id);
    }
    hide Cache, LockKey, Eligible;
  }

  /** A holder goes on holding, unless this step is its unlock, which removes the lock. */
  lemma HolderStays(prefix: string, s: State, e: Event, lockKey: string, id: Id)
    requires id in Holders(prefix, s.requests, lockKey) && !LosesLock(prefix, s, e, lockKey)
    ensures id in Holders(prefix, Next(prefix, s, e).requests, lockKey) || lockKey !in Next(prefix, s, e).store
  {
    StepKeepsIdentity(prefix, s, e, id);
    hide Cache, LockKey, Eligible;
  }

  lemma {:induction false} TokensAreHeld(prefix: string, events: seq<Event>, n: nat, lockKey: string)
    requires n <= |events| && NoLockLost(prefix, events, n, lockKey)
    ensures TokenHeld(prefix, StateAt(prefix, events, n), lockKey)
  {
    hide Next, Holders, LosesLock;
    if n > 0 {
      TokensAreHeld(prefix, events, n - 1, lockKey);
      var s, e := StateAt(prefix, events, n - 1), events[n - 1];
      var next := Next(prefix, s, e);
      if lockKey in next.store && next.store[lockKey].Token? {
        StepSetsToken(prefix, s, e, lockKey);
        if lockKey in s.store && s.store[lockKey].Token? {
          var id :| id in Holders(prefix, s.requests, lockKey);
          HolderStays(prefix, s, e, lockKey, id);
        }
      }
    }
  }

  /** The request is answered with 409 if it tries the lock now. */
  predicate Conflicts(prefix: string, s: State, id: Id) {
    IsAt(s, id, AtLock) && IsAt(Next(prefix, s, Lock(id, Fine)), id, Done(Conflict))
  }

  /** An execution stored, or is about to store, a response under this key. */
  predicate SucceededFor(prefix: string, s: State, storeKey: string, x: Execution) {
    x in s.executions && Successful(x.response.status) && CacheKey(prefix, x.verb, x.path, x.key) == storeKey
  }

  /** What a conflict means in any run: another request holds the lock, or the lock key is spelled like the
      cache key of a request that succeeded, whose response stands in the way for everybody, or a command
      on this very lock was lost. */
  lemma ConflictMeansHolder(prefix: string, events: seq<Event>, n: nat, id: Id)
    requires n <= |events| && Conflicts(prefix, StateAt(prefix, events, n), id)
    ensures var s := StateAt(prefix, events, n);
      var lockKey := LockOf(prefix, s.requests[id]);
      || (exists other :: other != id && other in Holders(prefix, s.requests, lockKey))
      || (HasResponse(s.store, lockKey) && exists x :: SucceededFor(prefix, s, lockKey, x))
      || (exists m :: 0 <= m < n && LosesLock(prefix, StateAt(prefix, events, m), events[m], lockKey))
  {
    var s := StateAt(prefix, events, n);
    var lockKey := LockOf(prefix, s.requests[id]);
    if NoLockLost(prefix, events, n, lockKey) {
      TokensAreHeld(prefix, events, n, lockKey);
      hide StateAt, Cache, LockKey, CacheKey;
      assert lockKey in s.store;
      if s.store[lockKey].Token? {
        var other :| other in Holders(prefix, s.requests, lockKey);
      } else {
        StoredMeansSucceeded(prefix, events, n, lockKey);
      }
    }
  }

  lemma StoredMeansSucceeded(prefix: string, events: seq<Event>, n: nat, storeKey: string)
    requires n <= |events| && HasResponse(StateAt(prefix, events, n).store, storeKey)
    ensures exists x :: SucceededFor(prefix, StateAt(prefix, events, n), storeKey, x)
  {
    ProvenanceHolds(prefix, events, n);
    var s := StateAt(prefix, events, n);
    hide StateAt, CacheKey;
    assert Produced(prefix, s, storeKey, s.store[storeKey].response);
    var x :| x in s.executions && ProducedBy(prefix, s, storeKey, s.store[storeKey].response, x);
    assert SucceededFor(prefix, s, storeKey, x);
  }

  /** Exactly, unless a command on this lock was lost: a request conflicts with nobody in progress if and only
      if its lock key holds a stored response and no holder is left to delete it. And while the lock has
      not expired, a request conflicts if and only if there is a holder or such a response. */
  lemma ConflictExact(prefix: string, events: seq<Event>, n: nat, id: Id)
    requires n <= |events| && IsAt(StateAt(prefix, events, n), id, AtLock)
    requires NoLockLost(prefix, events, n, LockOf(prefix, StateAt(prefix, events, n).requests[id]))
    ensures var s := StateAt(prefix, events, n);
      var lockKey := LockOf(prefix, s.requests[id]);
      && (Conflicts(prefix, s, id) && Holders(prefix, s.requests, lockKey) == {}
          <==> HasResponse(s.store, lockKey) && Holders(prefix, s.requests, lockKey) == {})
      && (s.expired[lockKey] == 0 ==>
            (Conflicts(prefix, s, id) <==> Holders(prefix, s.requests, lockKey) != {} || HasResponse(s.store, lockKey)))
  {
    var s := StateAt(prefix, events, n);
    var lockKey := LockOf(prefix, s.requests[id]);
    HoldersAreBounded(prefix, events, n, lockKey);
    TokensAreHeld(prefix, events, n, lockKey);
    ConflictsIfTaken(prefix, s, id);
    hide StateAt, LockOf, Cache, Conflicts;
    if s.expired[lockKey] == 0 && Holders(prefix, s.requests, lockKey) != {} {
      assert lockKey in s.store;
    }
  }

  lemma ConflictsIfTaken(prefix: string, s: State, id: Id)
    requires IsAt(s, id, AtLock)
    ensures Conflicts(prefix, s, id) <==> LockOf(prefix, s.requests[id]) in s.store
  {
    hide Cache, LockKey;
  }

  // ------------------------------------------------- what is stored and run

  /** Only successes are ever stored, about to be stored, or replayed. */
  lemma StoredAreSuccesses(prefix: string, events: seq<Event>, n: nat)
    requires n <= |events|
    ensures var s := StateAt(prefix, events, n);
      && (forall k :: HasResponse(s.store, k) ==> 200 <= s.store[k].response.status <= 299)
      && (forall id :: id in s.requests && s.requests[id].pc.AtPut? ==> 200 <= s.requests[id].pc.response.status <= 299)
      && (forall id :: id in s.requests && s.requests[id].pc.Done? && s.requests[id].pc.result.Replayed? ==>
            200 <= s.requests[id].pc.result.response.status <= 299)
  {
    ProvenanceHolds(prefix, events, n);
    hide StateAt, Cache;
  }

  /** The response of the handler, once it has returned. */
  function ResponseOf(pc: Pc): Option<CachedResponse> {
    match pc
    case AtPut(response) => Some(response)
    case AtUnlock(result) => if result.Executed? then Some(result.response) else None
    case Done(result) => if result.Executed? then Some(result.response) else None
    case _ => None
  }

  /** The log entry is of a request whose handler has returned this. */
  predicate EntryRight(s: State, x: Execution) {
    && x.id in s.requests && ResponseOf(s.requests[x.id].pc) == Some(x.response)
    && x.verb == s.requests[x.id].verb && x.path == s.requests[x.id].path && x.key == s.requests[x.id].key
  }

  /** If the request's handler has returned, the log says so. */
  predicate InLog(s: State, id: Id)
    requires id in s.requests
  {
    var r := s.requests[id];
    ResponseOf(r.pc).Some? ==> Execution(id, r.verb, r.path, r.key, ResponseOf(r.pc).value) in s.executions
  }

  predicate LoggedRight(s: State) {
    (forall x :: x in s.executions ==> EntryRight(s, x)) && (forall id :: id in s.requests ==> InLog(s, id))
  }

  /** How a step changes what a request has got from its handler. */
  lemma StepResponse(prefix: string, s: State, e: Event, id: Id)
    requires id in Next(prefix, s, e).requests
    ensures var now := ResponseOf(Next(prefix, s, e).requests[id].pc);
      if e.Handle? && e.id == id && e.result.Returned? && IsAt(s, id, Running) then now == Some(e.result.response)
      else now == if id in s.requests then ResponseOf(s.requests[id].pc) else None
  {
    hide Cache, LockOf, Eligible;
  }

  lemma StepLogs(prefix: string, s: State, e: Event)
    ensures var next := Next(prefix, s, e);
      next.executions ==
        if e.Handle? && e.result.Returned? && IsAt(s, e.id, Running) then
          s.executions + {Execution(e.id, s.requests[e.id].verb, s.requests[e.id].path, s.requests[e.id].key, e.result.response)}
        else s.executions
  {
    hide Cache, LockOf, Eligible;
  }

  lemma {:induction false} StepKeepsLogged(prefix: string, s: State, e: Event)
    requires LoggedRight(s)
    ensures LoggedRight(Next(prefix, s, e))
  {
    var next := Next(prefix, s, e);
    StepLogs(prefix, s, e);
    hide Next, EntryRight, InLog;
    forall x | x in next.executions
      ensures EntryRight(next, x)
    {
      if x in s.executions {
        EntryStays(prefix, s, e, x);
      } else {
        NewEntryRight(prefix, s, e, x);
      }
    }
    forall id | id in next.requests
      ensures InLog(next, id)
    {
      LogStays(prefix, s, e, id);
    }
  }

  lemma NewEntryRight(prefix: string, s: State, e: Event, x: Execution)
    requires x in Next(prefix, s, e).executions && x !in s.executions
    ensures EntryRight(Next(prefix, s, e), x)
  {
    StepLogs(prefix, s, e);
    StepKeepsIdentity(prefix, s, e, x.id);
    StepResponse(prefix, s, e, x.id);
    hide Next;
  }

  lemma EntryStays(prefix: string, s: State, e: Event, x: Execution)
    requires EntryRight(s, x)
    ensures EntryRight(Next(prefix, s, e), x)
  {
    StepKeepsIdentity(prefix, s, e, x.id);
    StepResponse(prefix, s, e, x.id);
    hide Next;
  }

  lemma LogStays(prefix: string, s: State, e: Event, id: Id)
    requires id in s.requests ==> InLog(s, id)
    requires id in Next(prefix, s, e).requests
    ensures InLog(Next(prefix, s, e), id)
  {
    StepLogs(prefix, s, e);
    StepResponse(prefix, s, e, id);
    if id in s.requests {
      StepKeepsIdentity(prefix, s, e, id);
    }
    hide Next;
  }

  /** The log of executions is right: it holds exactly the requests whose handler has returned, with what it
      returned; so that no request runs its handler twice. */
  lemma {:induction false} ExecutionsAreRuns(prefix: string, events: seq<Event>, n: nat)
    requires n <= |events|
    ensures LoggedRight(StateAt(prefix, events, n))
    ensures var log := StateAt(prefix, events, n).executions;
      forall x, y :: x in log && y in log && x.id == y.id ==> x == y
    ensures forall x :: x in StateAt(prefix, events, n).executions ==> Ran(StateAt(prefix, events, n).requests[x.id].pc)
  {
    hide Next;
    if n > 0 {
      ExecutionsAreRuns(prefix, events, n - 1);
      StepKeepsLogged(prefix, StateAt(prefix, events, n - 1), events[n - 1]);
    }
  }
}
