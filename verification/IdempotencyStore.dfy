/** The middleware itself over one Redis, run without interference, against the protocol. */
module IdempotencyStore {
  import opened Common
  import opened IdempotencyKeys
  import opened Recorder
  import opened IdempotencyProtocol
  import opened IdempotencyRuns

  datatype Lookup = Hit(response: CachedResponse) | Miss | ReadError

  datatype SetReply = Set(got: bool) | SetError

  /** The four commands the middleware uses, each atomic. A command that fails may have been carried out. */
  class RedisClient {
    var data: Redis

    method Get(storeKey: string, ok: bool) returns (r: Lookup)
      ensures r == if !ok then ReadError
                   else if HasResponse(data, storeKey) then Hit(data[storeKey].response)
                   else if storeKey in data then ReadError
                   else Miss
    {
      if !ok {
        return ReadError;
      }
      if storeKey !in data {
        return Miss;
      }
      match data[storeKey]
      case Token => return ReadError;
      case Stored(response) => return Hit(response);
    }

    method SetNX(storeKey: string, fault: Fault) returns (r: SetReply)
      modifies this
      ensures data == if storeKey !in old(data) && fault != NotApplied then old(data)[storeKey := Token] else old(data)
      ensures r == if fault == Fine then Set(storeKey !in old(data)) else SetError
    {
      r := if fault == Fine then Set(storeKey !in data) else SetError;
      if storeKey !in data && fault != NotApplied {
        data := data[storeKey := Token];
      }
    }

    method Put(storeKey: string, response: CachedResponse, fault: Fault)
      modifies this
      ensures data == if fault == NotApplied then old(data) else old(data)[storeKey := Stored(response)]
    {
      if fault != NotApplied {
        data := data[storeKey := Stored(response)];
      }
    }

    method Del(storeKey: string, fault: Fault)
      modifies this
      ensures data == if fault == NotApplied then old(data) else old(data) - {storeKey}
    {
      if fault != NotApplied {
        data := data - {storeKey};
      }
    }
  }

  /** Everything outside the middleware's control during one call. */
  datatype Surroundings = Surroundings(readOk: bool, lock: Fault, handler: HandlerResult, put: Fault, unlock: Fault)

  /** The events of one whole call; those that the outcome of an earlier one disables change nothing. */
  function Script(verb: string, path: string, key: string, env: Surroundings): seq<Event> {
    [Arrive(0, verb, path, key), Get(0, env.readOk), Lock(0, env.lock)]
    + [Handle(0, env.handler), Put(0, env.put), Unlock(0, env.unlock)]
  }

  /** The state in which Redis holds `data` and nobody has called yet. */
  function Fresh(data: Redis): State {
    State(data, map[], multiset{}, {})
  }

  lemma ScriptRuns(prefix: string, s: State, verb: string, path: string, key: string, env: Surroundings)
    ensures var s3 := Next(prefix, Next(prefix, Next(prefix, s,
                        Arrive(0, verb, path, key)), Get(0, env.readOk)), Lock(0, env.lock));
      Run(prefix, s, Script(verb, path, key, env)) ==
        AfterLock(prefix, s3, env)
  {
    hide Next;
    var a := [Arrive(0, verb, path, key), Get(0, env.readOk), Lock(0, env.lock)];
    var b := [Handle(0, env.handler), Put(0, env.put), Unlock(0, env.unlock)];
    RunTogether(prefix, s, a, b);
    RunThree(prefix, s, a[0], a[1], a[2]);
    RunThree(prefix, Run(prefix, s, a), b[0], b[1], b[2]);
  }

  function AfterLock(prefix: string, s: State, env: Surroundings): State {
    Next(prefix, Next(prefix, Next(prefix, s, Handle(0, env.handler)), Put(0, env.put)), Unlock(0, env.unlock))
  }

  /** Once a request is done the remaining events of its call change nothing. */
  lemma AfterDone(prefix: string, s: State, env: Surroundings)
    requires 0 in s.requests && s.requests[0].pc.Done?
    ensures Next(prefix, s, Get(0, env.readOk)) == s && Next(prefix, s, Lock(0, env.lock)) == s
    ensures AfterLock(prefix, s, env) == s
  {
  }

  /** The state with one request in it. */
  function Alone(data: Redis, verb: string, path: string, key: string, pc: Pc, executions: set<Execution>): State {
    State(data, map[0 := Request(verb, path, key, pc)], multiset{}, executions)
  }

  lemma ArriveAlone(prefix: string, data: Redis, verb: string, path: string, key: string)
    ensures Next(prefix, Fresh(data), Arrive(0, verb, path, key))
         == Alone(data, verb, path, key, if Eligible(verb, key) then AtGet else Done(Bypassed), {})
  {
    hide Eligible;
  }

  lemma GetAlone(prefix: string, data: Redis, verb: string, path: string, key: string, ok: bool)
    ensures var cacheKey := CacheKey(prefix, verb, path, key);
      Next(prefix, Alone(data, verb, path, key, AtGet, {}), Get(0, ok))
      == Alone(data, verb, path, key,
               if ok && HasResponse(data, cacheKey) then Done(Replayed(data[cacheKey].response)) else AtLock, {})
  {
    hide CacheKey;
  }

  lemma LockAlone(prefix: string, data: Redis, verb: string, path: string, key: string, fault: Fault)
    ensures var lockKey := LockKey(prefix, verb, path, key);
      Next(prefix, Alone(data, verb, path, key, AtLock, {}), Lock(0, fault))
      == Alone(if lockKey !in data && fault != NotApplied then data[lockKey := Token] else data, verb, path, key,
               if fault != Fine then Done(LockUnavailable) else if lockKey !in data then Running else Done(Conflict), {})
  {
    hide LockKey;
  }

  lemma RunAlone(prefix: string, data: Redis, verb: string, path: string, key: string, result: HandlerResult)
    ensures Next(prefix, Alone(data, verb, path, key, Running, {}), Handle(0, result))
         == if result.Panics? then Alone(data, verb, path, key, AtUnlock(Panicked), {})
            else Alone(data, verb, path, key,
                       if Successful(result.response.status) then AtPut(result.response) else AtUnlock(Executed(result.response)),
                       {Execution(0, verb, path, key, result.response)})
  {
  }

  lemma PutAlone(prefix: string, data: Redis, verb: string, path: string, key: string, pc: Pc, log: set<Execution>, fault: Fault)
    requires pc.AtPut? || pc.AtUnlock?
    ensures Next(prefix, Alone(data, verb, path, key, pc, log), Put(0, fault))
         == if pc.AtUnlock? then Alone(data, verb, path, key, pc, log)
            else Alone(if fault == NotApplied then data else data[CacheKey(prefix, verb, path, key) := Stored(pc.response)],
                       verb, path, key, AtUnlock(Executed(pc.response)), log)
  {
    hide CacheKey;
  }

  lemma UnlockAlone(prefix: string, data: Redis, verb: string, path: string, key: string, result: Outcome, log: set<Execution>, fault: Fault)
    ensures Next(prefix, Alone(data, verb, path, key, AtUnlock(result), log), Unlock(0, fault))
         == Alone(if fault == NotApplied then data else data - {LockKey(prefix, verb, path, key)},
                  verb, path, key, Done(result), log)
  {
    hide LockKey;
  }

  /** From the handler to the deferred DEL: a success is stored first, and the lock goes in any case. */
  lemma HandleAlone(prefix: string, data: Redis, verb: string, path: string, key: string, env: Surroundings)
    ensures var stored :=
        if env.handler.Returned? && Successful(env.handler.response.status) && env.put != NotApplied
        then data[CacheKey(prefix, verb, path, key) := Stored(env.handler.response)] else data;
      AfterLock(prefix, Alone(data, verb, path, key, Running, {}), env)
      == Alone(if env.unlock == NotApplied then stored else stored - {LockKey(prefix, verb, path, key)},
               verb, path, key,
               Done(if env.handler.Panics? then Panicked else Executed(env.handler.response)),
               if env.handler.Panics? then {} else {Execution(0, verb, path, key, env.handler.response)})
  {
    hide CacheKey, LockKey, Successful, Next, Alone;
    RunAlone(prefix, data, verb, path, key, env.handler);
    var result := if env.handler.Panics? then Panicked else Executed(env.handler.response);
    var log := if env.handler.Panics? then {} else {Execution(0, verb, path, key, env.handler.response)};
    var toPut := env.handler.Returned? && Successful(env.handler.response.status);
    PutAlone(prefix, data, verb, path, key, if toPut then AtPut(env.handler.response) else AtUnlock(result), log, env.put);
    var stored := if toPut && env.put != NotApplied
                  then data[CacheKey(prefix, verb, path, key) := Stored(env.handler.response)] else data;
    UnlockAlone(prefix, stored, verb, path, key, result, log, env.unlock);
  }

  lemma KeysDiffer(prefix: string, verb: string, path: string, key: string)
    ensures CacheKey(prefix, verb, path, key) == prefix + verb + ":" + path + ":" + key
    ensures LockKey(prefix, verb, path, key) == prefix + verb + ":" + path + ":" + key + ":lock"
    ensures CacheKey(prefix, verb, path, key) != LockKey(prefix, verb, path, key)
  {
    assert |LockKey(prefix, verb, path, key)| == |CacheKey(prefix, verb, path, key)| + 5;
  }

  /** Where one undisturbed call ends, spelled out: who is let through, what is replayed, when the lock is
      refused, and that a response is kept exactly if its status is from 200 to 299. */
  lemma CallInFigures(prefix: string, was: Redis, verb: string, path: string, key: string, env: Surroundings)
    ensures var end := Run(prefix, Fresh(was), Script(verb, path, key, env));
      var cacheKey := prefix + verb + ":" + path + ":" + key;
      var lockKey := cacheKey + ":lock";
      && 0 in end.requests && end.requests[0].pc.Done?
      && var outcome := end.requests[0].pc.result;
        if key == "" || !(SameButCase(verb, "POST") || SameButCase(verb, "PUT")
                          || SameButCase(verb, "PATCH") || SameButCase(verb, "DELETE")) then
          outcome == Bypassed && end.store == was
        else if env.readOk && cacheKey in was && was[cacheKey].Stored? then
          outcome == Replayed(was[cacheKey].response) && end.store == was
        else if env.lock != Fine then
          && outcome == LockUnavailable
          && end.store == if env.lock == Applied && lockKey !in was then was[lockKey := Token] else was
        else if lockKey in was then
          outcome == Conflict && end.store == was
        else if env.handler.Panics? then
          outcome == Panicked && end.store == if env.unlock == NotApplied then was[lockKey := Token] else was
        else
          var r := env.handler.response;
          var kept := if 200 <= r.status <= 299 && env.put != NotApplied then was[cacheKey := Stored(r)] else was;
          outcome == Executed(r) && end.store == if env.unlock == NotApplied then kept[lockKey := Token] else kept
  {
    var s1 := Next(prefix, Fresh(was), Arrive(0, verb, path, key));
    var s2 := Next(prefix, s1, Get(0, env.readOk));
    var s3 := Next(prefix, s2, Lock(0, env.lock));
    MutatingExactly(verb);
    KeysDiffer(prefix, verb, path, key);
    ScriptRuns(prefix, Fresh(was), verb, path, key, env);
    ArriveAlone(prefix, was, verb, path, key);
    hide Next, Run, CacheKey, LockKey, Mutating, AfterLock, SameButCase, Script;
    if !Eligible(verb, key) {
      AfterDone(prefix, s1, env);
    } else {
      GetAlone(prefix, was, verb, path, key, env.readOk);
      if s2.requests[0].pc.Done? {
        AfterDone(prefix, s2, env);
      } else {
        LockAlone(prefix, was, verb, path, key, env.lock);
        if s3.requests[0].pc.Done? {
          AfterDone(prefix, s3, env);
        } else {
          HandleAlone(prefix, s3.store, verb, path, key, env);
          LockThenStore(was, CacheKey(prefix, verb, path, key), LockKey(prefix, verb, path, key), env);
        }
      }
    }
  }

  lemma LockThenStore(was: Redis, cacheKey: string, lockKey: string, env: Surroundings)
    requires lockKey !in was && cacheKey != lockKey
    ensures was[lockKey := Token] - {lockKey} == was
    ensures forall r :: was[lockKey := Token][cacheKey := Stored(r)] == was[cacheKey := Stored(r)][lockKey := Token]
    ensures forall r :: was[lockKey := Token][cacheKey := Stored(r)] - {lockKey} == was[cacheKey := Stored(r)]
  {
  }

  class Store {
    const prefix: string
    const rdb: RedisClient

    constructor (client: RedisClient, keyPrefix: string)
      ensures rdb == client && prefix == if keyPrefix == "" then "idempotency:" else keyPrefix
    {
      rdb := client;
      prefix := if keyPrefix == "" then "idempotency:" else keyPrefix;
    }

    /** One call of the middleware is a run of the protocol: it leaves Redis as the protocol does,
        and its outcome is where the request ends there. CallInFigures spells that out. */
    method Serve(verb: string, path: string, key: string, env: Surroundings) returns (outcome: Outcome)
      modifies rdb
      ensures var end := Run(prefix, Fresh(old(rdb.data)), Script(verb, path, key, env));
        rdb.data == end.store && IsAt(end, 0, Done(outcome))
    {
      ghost var was := rdb.data;
      ghost var s1 := Next(prefix, Fresh(was), Arrive(0, verb, path, key));
      ghost var s2 := Next(prefix, s1, Get(0, env.readOk));
      ghost var s3 := Next(prefix, s2, Lock(0, env.lock));
      ScriptRuns(prefix, Fresh(was), verb, path, key, env);
      ArriveAlone(prefix, was, verb, path, key);
      hide Next, Run, CacheKey, LockKey, Mutating, AfterLock;
      if key == "" || !Mutating(verb) {
        AfterDone(prefix, s1, env);
        return Bypassed;
      }
      GetAlone(prefix, was, verb, path, key, env.readOk);
      var cacheKey := CacheKey(prefix, verb, path, key);
      var lockKey := LockKey(prefix, verb, path, key);
      var cached := rdb.Get(cacheKey, env.readOk);
      if cached.Hit? {
        AfterDone(prefix, s2, env);
        return Replayed(cached.response);
      }
      LockAlone(prefix, was, verb, path, key, env.lock);
      var reply := rdb.SetNX(lockKey, env.lock);
      if reply.SetError? {
        AfterDone(prefix, s3, env);
        return LockUnavailable;
      }
      if !reply.got {
        AfterDone(prefix, s3, env);
        return Conflict;
      }
      HandleAlone(prefix, rdb.data, verb, path, key, env);
      match env.handler {
        case Panics =>
          rdb.Del(lockKey, env.unlock);
          return Panicked;
        case Returned(response) =>
          if Successful(response.status) {
            rdb.Put(cacheKey, response, env.put);
          }
          rdb.Del(lockKey, env.unlock);
          return Executed(response);
      }
    }
  }
}
