/** The rate limiter over Redis: one bucket a key, and the middleware in front of it. */
module RateLimiter {
  import opened Common
  import opened TokenBucket

  /** How the call to Redis fares; when only the reply is lost the script has still run. */
  datatype Net = Delivered | RequestLost | ReplyLost

  datatype Decision = Decided(allowed: bool, waitMs: int) | Failed

  datatype Response = PassedOn | TooManyRequests(retryAfter: Option<int>) | Unavailable

  type Buckets = map<string, Bucket>

  function SlotOf(data: Buckets, key: string): Option<Bucket> {
    if key in data then Some(data[key]) else None
  }

  const DEFAULT_PREFIX := "ratelimit:"

  class Limiter {
    const cfg: Config
    const prefix: string
    /** What Redis holds; the script and key expiry are the only writers. */
    var data: Buckets

    ghost predicate Valid()
      reads this
    {
      forall key :: key in data ==> ValidBucket(cfg, data[key])
    }

    constructor (limit: int, window: int, burst: int, keyPrefix: string)
      requires limit >= 1 && window >= 1
      ensures Valid() && data == map[]
      ensures cfg == New(limit, window, burst)
      ensures cfg.limit == limit && cfg.window == window && cfg.burst == if burst <= 0 then limit else burst
      ensures prefix == if keyPrefix == "" then "ratelimit:" else keyPrefix
    {
      cfg := New(limit, window, burst);
      prefix := if keyPrefix == "" then DEFAULT_PREFIX else keyPrefix;
      data := map[];
    }

    /** Redis drops a key whose deadline has been reached. */
    method Expire(key: string, clock: int)
      requires Valid()
      modifies this
      ensures Valid()
      ensures data == if key in old(data) && clock >= old(data)[key].expireAt then old(data) - {key} else old(data)
    {
      if key in data && clock >= data[key].expireAt {
        data := data - {key};
      }
    }

    /** The Lua script, statement by statement, on tokens scaled by the window. */
    method RunScript(key: string, now: int) returns (reply: Reply)
      requires Valid()
      modifies this
      ensures Valid()
      ensures var outcome := Step(cfg, SlotOf(old(data), key), now);
        data == old(data)[key := outcome.bucket] && reply == outcome.reply
    {
      StepKeepsValid(cfg, SlotOf(data, key), now);
      var capacity := cfg.burst * cfg.window;
      PriceIsProduct(cfg, cfg.burst);
      var tokens: int := capacity;
      var ts := now;
      if key in data {
        tokens := data[key].tokens;
        ts := data[key].ts;
      }
      var elapsed := Max(0, now - ts);
      tokens := Refilled(capacity, tokens, elapsed);
      if tokens < cfg.window {
        data := data[key := Bucket(tokens, now, now + 2 * cfg.window)];
        var wait := Wait(cfg.window - tokens);
        return Reply(false, wait);
      }
      tokens := tokens - cfg.window;
      data := data[key := Bucket(tokens, now, now + 2 * cfg.window)];
      return Reply(true, 0);
    }

    /** The lazy refill, capped. */
    method Refilled(capacity: int, tokens: int, elapsed: nat) returns (r: int)
      ensures r == Min(capacity, tokens + Refill(cfg, elapsed))
    {
      RefillIsProduct(cfg, elapsed);
      r := Min(capacity, tokens + elapsed * cfg.limit);
    }

    /** The time until `need` has come back, rounded up to milliseconds. */
    method Wait(need: nat) returns (r: nat)
      ensures r == WaitFor(cfg, need)
    {
      WaitIsCeiling(cfg, need);
      r := (need + cfg.limit - 1) / cfg.limit;
    }

    /** An empty key is not limited; an error means the decision is not known, not that nothing happened. */
    method Allow(key: string, now: int, net: Net) returns (decision: Decision)
      requires Valid()
      modifies this
      ensures Valid()
      ensures key == "" ==> decision == Decided(true, 0) && data == old(data)
      ensures key != "" && net == RequestLost ==> decision == Failed && data == old(data)
      ensures key != "" && net != RequestLost ==>
        var outcome := Step(cfg, SlotOf(old(data), prefix + key), now);
        && data == old(data)[prefix + key := outcome.bucket]
        && decision == if net == ReplyLost then Failed else Decided(outcome.reply.allowed, outcome.reply.wait)
    {
      if key == "" {
        return Decided(true, 0);
      }
      if net == RequestLost {
        return Failed;
      }
      var reply := RunScript(prefix + key, now);
      decision := if net == ReplyLost then Failed else Decided(reply.allowed, reply.wait);
    }

    /** The middleware. Every denial that is known carries a Retry-After header, and its value is the
        one ObedientClientIsAdmitted is about. */
    method Serve(key: string, now: int, net: Net) returns (response: Response)
      requires Valid()
      modifies this
      ensures Valid()
      ensures key == "" ==> response == PassedOn && data == old(data)
      ensures key != "" && net != Delivered ==> response == Unavailable
      ensures key != "" && net == RequestLost ==> data == old(data)
      ensures key != "" && net == ReplyLost ==>
        data == old(data)[prefix + key := Step(cfg, SlotOf(old(data), prefix + key), now).bucket]
      ensures key != "" && net == Delivered ==>
        var outcome := Step(cfg, SlotOf(old(data), prefix + key), now);
        && data == old(data)[prefix + key := outcome.bucket]
        && (response == PassedOn <==> outcome.reply.allowed)
        && (outcome.reply.allowed || outcome.reply.wait >= 1)
        && (outcome.reply.allowed || response == TooManyRequests(Some(RetryAfterSeconds(outcome.reply.wait))))
    {
      ghost var slot := SlotOf(data, prefix + key);
      var decision := Allow(key, now, net);
      if decision.Failed? {
        return Unavailable;
      }
      if !decision.allowed {
        WaitIsExact(cfg, slot, now, 0, false);
        var retryAfter := None;
        if decision.waitMs > 0 {
          retryAfter := Some(decision.waitMs / 1000 + 1);
        }
        return TooManyRequests(retryAfter);
      }
      return PassedOn;
    }
  }

  // ----------------------------------------------------------- many keys

  datatype Request = Request(key: string, tick: Tick)

  /** What Redis holds before request n of a run over any keys. */
  function BucketsAt(c: Config, requests: seq<Request>, n: nat): Buckets
    requires n <= |requests|
  {
    if n == 0 then map[]
    else
      var before := BucketsAt(c, requests, n - 1);
      var r := requests[n - 1];
      before[r.key := Step(c, Visible(SlotOf(before, r.key), r.tick), r.tick.now).bucket]
  }

  function AnswerAt(c: Config, requests: seq<Request>, n: nat): Reply
    requires n < |requests|
  {
    var r := requests[n];
    Step(c, Visible(SlotOf(BucketsAt(c, requests, n), r.key), r.tick), r.tick.now).reply
  }

  /** The requests for one key among the first n. */
  function ForKey(requests: seq<Request>, key: string, n: nat): seq<Tick>
    requires n <= |requests|
  {
    if n == 0 then []
    else ForKey(requests, key, n - 1) + (if requests[n - 1].key == key then [requests[n - 1].tick] else [])
  }

  /** Keys do not share tokens: each is treated as if the requests for it were the only ones, so every
      theorem about one bucket holds of every key of an interleaved run. */
  lemma {:induction false} KeysAreIndependent(c: Config, requests: seq<Request>, key: string, n: nat)
    requires n <= |requests|
    ensures var own := ForKey(requests, key, n);
      SlotOf(BucketsAt(c, requests, n), key) == SlotAt(c, None, own, |own|)
    ensures n < |requests| && requests[n].key == key ==>
      var own := ForKey(requests, key, n + 1);
      |own| > 0 && AnswerAt(c, requests, n) == ReplyAt(c, None, own, |own| - 1)
  {
    hide Step, SlotAt;
    EmptyRuns(c, [], []);
    if n > 0 {
      KeysAreIndependent(c, requests, key, n - 1);
      var before := ForKey(requests, key, n - 1);
      SlotAtAppend(c, None, before, requests[n - 1].tick);
      assert before + [] == before;
    }
    if n < |requests| && requests[n].key == key {
      var own := ForKey(requests, key, n);
      var next := own + [requests[n].tick];
      assert ForKey(requests, key, n + 1) == next && next[..|own|] == own;
      SlotAtPrefix(c, None, own, next, |own|);
    }
  }
}
