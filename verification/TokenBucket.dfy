/** The token bucket that the Redis script keeps for one key.

    Tokens are stored multiplied by the window, so that the refill rate
    limit/window becomes `limit` units a millisecond, one request costs `window`
    units, and the arithmetic of the script is exact over the integers. The products
    and the quotient of the script are written as sums here, which keeps the proofs
    linear; PriceIsProduct, RefillIsProduct and WaitIsCeiling say that they are the same. */
module TokenBucket {
  import opened Common

  datatype Settings = Settings(limit: int, window: int, burst: int)

  type Config = c: Settings | c.limit >= 1 && c.window >= 1 && c.burst >= 1
    witness Settings(1, 1, 1)

  /** The Redis hash of one key: token level, time stamp, and the deadline set by PEXPIRE. */
  datatype Bucket = Bucket(tokens: int, ts: int, expireAt: int)

  datatype Reply = Reply(allowed: bool, wait: int)

  datatype Outcome = Outcome(bucket: Bucket, reply: Reply)

  /** What n requests cost. */
  function Price(c: Config, n: nat): nat {
    if n == 0 then 0 else Price(c, n - 1) + c.window
  }

  /** What comes back in ms milliseconds. */
  function Refill(c: Config, ms: nat): nat {
    if ms == 0 then 0 else Refill(c, ms - 1) + c.limit
  }

  /** In how many milliseconds at least `need` comes back. */
  function WaitFor(c: Config, need: int): nat
    decreases Max(0, need)
  {
    if need <= 0 then 0 else 1 + WaitFor(c, need - c.limit)
  }

  function Capacity(c: Config): nat {
    Price(c, c.burst)
  }

  lemma {:induction false} PriceIsProduct(c: Config, n: nat)
    ensures Price(c, n) == c.window * n
  {
    if n > 0 {
      PriceIsProduct(c, n - 1);
    }
  }

  lemma {:induction false} RefillIsProduct(c: Config, ms: nat)
    ensures Refill(c, ms) == c.limit * ms
  {
    if ms > 0 {
      RefillIsProduct(c, ms - 1);
    }
  }

  lemma {:induction false} PriceAdds(c: Config, m: nat, n: nat)
    ensures Price(c, m + n) == Price(c, m) + Price(c, n)
    ensures Price(c, 1) == c.window && Price(c, 0) == 0
  {
    if n > 0 {
      PriceAdds(c, m, n - 1);
    }
  }

  lemma {:induction false} RefillAdds(c: Config, m: nat, n: nat)
    ensures Refill(c, m + n) == Refill(c, m) + Refill(c, n)
    ensures Refill(c, 0) == 0 && Refill(c, n) >= n
  {
    if n > 0 {
      RefillAdds(c, m, n - 1);
    }
  }

  /** WaitFor is the least number of milliseconds in which `need` comes back. */
  lemma {:induction false} WaitIsLeast(c: Config, need: int, ms: nat)
    ensures Refill(c, ms) >= need <==> ms >= WaitFor(c, need)
    decreases ms
  {
    if need > 0 && ms > 0 {
      WaitIsLeast(c, need - c.limit, ms - 1);
    }
  }

  /** And so it is the quotient of the script, rounded up. */
  lemma WaitIsCeiling(c: Config, need: nat)
    ensures WaitFor(c, need) == (need + c.limit - 1) / c.limit
  {
    var q := (need + c.limit - 1) / c.limit;
    WaitIsLeast(c, need, q);
    RefillIsProduct(c, q);
    if q > 0 {
      WaitIsLeast(c, need, q - 1);
      RefillIsProduct(c, q - 1);
    }
  }

  /** A burst that is not positive is replaced by the limit. */
  function New(limit: int, window: int, burst: int): Config
    requires limit >= 1 && window >= 1
  {
    Settings(limit, window, if burst <= 0 then limit else burst)
  }

  /** How far the clock has moved forward; a clock that went back counts as no move. */
  function Advance(before: int, now: int): nat {
    Max(0, now - before)
  }

  /** The level after the lazy refill; an absent key counts as a full bucket. */
  function Level(c: Config, slot: Option<Bucket>, now: int): int {
    match slot
    case None => Capacity(c)
    case Some(b) => Min(Capacity(c), b.tokens + Refill(c, Advance(b.ts, now)))
  }

  /** One atomic run of the script. */
  function Step(c: Config, slot: Option<Bucket>, now: int): Outcome {
    var level := Level(c, slot, now);
    if level < c.window then
      Outcome(Bucket(level, now, now + 2 * c.window), Reply(false, WaitFor(c, c.window - level)))
    else
      Outcome(Bucket(level - c.window, now, now + 2 * c.window), Reply(true, 0))
  }

  predicate ValidBucket(c: Config, b: Bucket) {
    0 <= b.tokens <= Capacity(c) && b.expireAt == b.ts + 2 * c.window
  }

  predicate ValidSlot(c: Config, slot: Option<Bucket>) {
    slot.Some? ==> ValidBucket(c, slot.value)
  }

  lemma LevelBounds(c: Config, slot: Option<Bucket>, now: int)
    requires ValidSlot(c, slot)
    ensures 0 <= Level(c, slot, now) <= Capacity(c)
    ensures c.window <= Capacity(c)
  {
    PriceAdds(c, 1, c.burst - 1);
  }

  /** Whatever the clock does, the stored level stays within [0, burst] tokens. */
  lemma StepKeepsValid(c: Config, slot: Option<Bucket>, now: int)
    requires ValidSlot(c, slot)
    ensures ValidBucket(c, Step(c, slot, now).bucket)
  {
    LevelBounds(c, slot, now);
  }

  /** One run of the script in figures: what it finds is the stored level and what came back since, at most
      the burst; what it leaves is that, less one token if there was one; and the wait is the least whole
      number of milliseconds in which what is missing comes back. */
  lemma StepInFigures(c: Config, slot: Option<Bucket>, now: int)
    requires ValidSlot(c, slot)
    ensures var full := c.burst * c.window;
      var refilled := if slot.None? then full
                      else if now <= slot.value.ts then slot.value.tokens
                      else slot.value.tokens + c.limit * (now - slot.value.ts);
      var found := if refilled > full then full else refilled;
      var out := Step(c, slot, now);
      && (out.reply.allowed <==> found >= c.window)
      && out.bucket.tokens == (if found >= c.window then found - c.window else found)
      && out.bucket.ts == now && out.bucket.expireAt == now + 2 * c.window
      && (found >= c.window ==> out.reply.wait == 0)
      && (found < c.window ==> c.limit * (out.reply.wait - 1) < c.window - found <= c.limit * out.reply.wait)
  {
    PriceIsProduct(c, c.burst);
    LevelInFigures(c, slot, now);
    var level := Level(c, slot, now);
    hide Level, Price, Refill;
    if level < c.window {
      WaitInFigures(c, c.window - level);
    }
  }

  lemma LevelInFigures(c: Config, slot: Option<Bucket>, now: int)
    requires ValidSlot(c, slot)
    ensures Level(c, slot, now) == match slot
      case None => c.burst * c.window
      case Some(b) => Min(c.burst * c.window, b.tokens + (if now <= b.ts then 0 else c.limit * (now - b.ts)))
  {
    PriceIsProduct(c, c.burst);
    if slot.Some? {
      RefillIsProduct(c, Advance(slot.value.ts, now));
      assert c.limit * 0 == 0;
    }
    hide Price, Refill;
  }

  lemma WaitInFigures(c: Config, need: nat)
    requires need > 0
    ensures var w := WaitFor(c, need); w > 0 && c.limit * (w - 1) < need <= c.limit * w
  {
    var w := WaitFor(c, need);
    WaitIsLeast(c, need, w);
    WaitIsLeast(c, need, w - 1);
    RefillIsProduct(c, w);
    RefillIsProduct(c, w - 1);
    hide Refill;
  }

  // ---------------------------------------------------------------- runs

  /** One request: the clock it carries, and whether Redis dropped the key just before it. */
  datatype Tick = Tick(now: int, expired: bool)

  function Visible(slot: Option<Bucket>, tick: Tick): Option<Bucket> {
    if tick.expired then None else slot
  }

  /** What is stored before request n. */
  function SlotAt(c: Config, start: Option<Bucket>, trace: seq<Tick>, n: nat): Option<Bucket>
    requires n <= |trace|
  {
    if n == 0 then start
    else Some(Step(c, Visible(SlotAt(c, start, trace, n - 1), trace[n - 1]), trace[n - 1].now).bucket)
  }

  /** The refilled level that request n finds. */
  function LevelAt(c: Config, start: Option<Bucket>, trace: seq<Tick>, n: nat): int
    requires n < |trace|
  {
    Level(c, Visible(SlotAt(c, start, trace, n), trace[n]), trace[n].now)
  }

  function ReplyAt(c: Config, start: Option<Bucket>, trace: seq<Tick>, n: nat): Reply
    requires n < |trace|
  {
    Step(c, Visible(SlotAt(c, start, trace, n), trace[n]), trace[n].now).reply
  }

  predicate AdmittedAt(c: Config, start: Option<Bucket>, trace: seq<Tick>, n: nat)
    requires n < |trace|
  {
    ReplyAt(c, start, trace, n).allowed
  }

  /** How many of the requests i, ..., j-1 are admitted. */
  function Admitted(c: Config, start: Option<Bucket>, trace: seq<Tick>, i: nat, j: nat): nat
    requires i <= j <= |trace|
  {
    if i == j then 0
    else Admitted(c, start, trace, i, j - 1) + (if AdmittedAt(c, start, trace, j - 1) then 1 else 0)
  }

  /** The sum of the forward clock moves from request i to request j. */
  function Forward(trace: seq<Tick>, i: nat, j: nat): nat
    requires i <= j < |trace|
  {
    if i == j then 0
    else Forward(trace, i, j - 1) + Advance(trace[j - 1].now, trace[j].now)
  }

  predicate Monotone(trace: seq<Tick>) {
    forall i, j :: 0 <= i < j < |trace| ==> trace[i].now <= trace[j].now
  }

  predicate NoExpiry(trace: seq<Tick>) {
    forall i :: 0 <= i < |trace| ==> !trace[i].expired
  }

  /** Redis drops a key only once its deadline has been reached. */
  predicate LegalExpiry(c: Config, start: Option<Bucket>, trace: seq<Tick>) {
    forall n :: 0 <= n < |trace| && trace[n].expired ==>
      var slot := SlotAt(c, start, trace, n);
      slot.Some? ==> trace[n].now >= slot.value.expireAt
  }

  /** The same requests on a store that never drops keys. */
  function Unexpired(trace: seq<Tick>): (r: seq<Tick>)
    ensures |r| == |trace|
    ensures forall i :: 0 <= i < |trace| ==> r[i] == Tick(trace[i].now, false)
  {
    seq(|trace|, i requires 0 <= i < |trace| => Tick(trace[i].now, false))
  }

  lemma {:induction false} SlotAtValid(c: Config, start: Option<Bucket>, trace: seq<Tick>, n: nat)
    requires n <= |trace| && ValidSlot(c, start)
    ensures ValidSlot(c, SlotAt(c, start, trace, n))
    ensures n > 0 ==> SlotAt(c, start, trace, n).Some? && SlotAt(c, start, trace, n).value.ts == trace[n - 1].now
  {
    if n > 0 {
      SlotAtValid(c, start, trace, n - 1);
      StepKeepsValid(c, Visible(SlotAt(c, start, trace, n - 1), trace[n - 1]), trace[n - 1].now);
    }
  }

  /** The recurrence behind everything below: what one request does to the next request's level. */
  lemma LevelNext(c: Config, start: Option<Bucket>, trace: seq<Tick>, n: nat)
    requires n + 1 < |trace|
    ensures LevelAt(c, start, trace, n + 1) ==
            if trace[n + 1].expired then Capacity(c)
            else Min(Capacity(c),
                     LevelAt(c, start, trace, n) - (if AdmittedAt(c, start, trace, n) then c.window else 0)
                     + Refill(c, Advance(trace[n].now, trace[n + 1].now)))
  {
    hide Refill, Price;
  }

  lemma AdmittedIffLevel(c: Config, start: Option<Bucket>, trace: seq<Tick>, n: nat)
    requires n < |trace|
    ensures AdmittedAt(c, start, trace, n) <==> LevelAt(c, start, trace, n) >= c.window
  {
    hide Refill, Price;
  }

  lemma FirstLevel(c: Config, trace: seq<Tick>)
    requires |trace| > 0
    ensures LevelAt(c, None, trace, 0) == Capacity(c)
  {
  }

  lemma {:induction false} ForwardTelescopes(trace: seq<Tick>, i: nat, j: nat)
    requires i <= j < |trace| && Monotone(trace)
    ensures Forward(trace, i, j) == trace[j].now - trace[i].now
  {
    if i < j {
      ForwardTelescopes(trace, i, j - 1);
    }
  }

  // ------------------------------------------- decisions from history alone

  /** The bound that the requests k, ..., n-1 put on the level found by request n. */
  function HistoryCap(c: Config, start: Option<Bucket>, trace: seq<Tick>, k: nat, n: nat): int
    requires k <= n < |trace|
  {
    Capacity(c) + Refill(c, Forward(trace, k, n)) - Price(c, Admitted(c, start, trace, k, n))
  }

  lemma HistoryCapNext(c: Config, start: Option<Bucket>, trace: seq<Tick>, k: nat, n: nat)
    requires k <= n && n + 1 < |trace|
    ensures HistoryCap(c, start, trace, k, n + 1) ==
            HistoryCap(c, start, trace, k, n) - (if AdmittedAt(c, start, trace, n) then c.window else 0)
            + Refill(c, Advance(trace[n].now, trace[n + 1].now))
  {
    hide Price, Refill, AdmittedAt, Advance;
    RefillAdds(c, Forward(trace, k, n), Advance(trace[n].now, trace[n + 1].now));
    PriceAdds(c, Admitted(c, start, trace, k, n), 1);
  }

  lemma HistoryCapHere(c: Config, start: Option<Bucket>, trace: seq<Tick>, n: nat)
    requires n < |trace|
    ensures HistoryCap(c, start, trace, n, n) == Capacity(c)
  {
    hide AdmittedAt;
    RefillAdds(c, 0, 0);
    PriceAdds(c, 0, 0);
  }

  /** The stored state is the min-plus closed form of the whole history: the level that request n
      finds is the least of the caps put on it by the suffixes of the history. Any clock will do. */
  lemma {:induction false} LevelIsClosedForm(c: Config, trace: seq<Tick>, n: nat) returns (least: nat)
    requires n < |trace| && NoExpiry(trace)
    ensures forall k :: 0 <= k <= n ==> LevelAt(c, None, trace, n) <= HistoryCap(c, None, trace, k, n)
    ensures least <= n && LevelAt(c, None, trace, n) == HistoryCap(c, None, trace, least, n)
  {
    hide Step, HistoryCap, SlotAt, LevelAt, AdmittedAt, Refill, Price, Admitted, Advance;
    HistoryCapHere(c, None, trace, n);
    if n == 0 {
      least := 0;
      FirstLevel(c, trace);
    } else {
      var before := LevelIsClosedForm(c, trace, n - 1);
      LevelNext(c, None, trace, n - 1);
      forall k | 0 <= k <= n
        ensures LevelAt(c, None, trace, n) <= HistoryCap(c, None, trace, k, n)
      {
        if k < n {
          HistoryCapNext(c, None, trace, k, n - 1);
        }
      }
      HistoryCapNext(c, None, trace, before, n - 1);
      least := if LevelAt(c, None, trace, n) == Capacity(c) then n else before;
    }
  }

  /** No suffix k, ..., n of the history, request n included, exceeds burst + rate * time. */
  predicate WithinAllowance(c: Config, trace: seq<Tick>, k: nat, n: nat)
    requires k <= n < |trace|
  {
    Price(c, Admitted(c, None, trace, k, n) + 1) <= Capacity(c) + Refill(c, Forward(trace, k, n))
  }

  lemma WithinAllowanceIsCap(c: Config, trace: seq<Tick>, k: nat, n: nat)
    requires k <= n < |trace|
    ensures WithinAllowance(c, trace, k, n) <==> c.window <= HistoryCap(c, None, trace, k, n)
  {
    hide Price, Refill, Admitted, Forward;
    PriceAdds(c, Admitted(c, None, trace, k, n), 1);
  }

  /** Request n is admitted exactly when no suffix of the history has used up its allowance. */
  lemma DecidedByHistory(c: Config, trace: seq<Tick>, n: nat)
    requires n < |trace| && NoExpiry(trace)
    ensures AdmittedAt(c, None, trace, n) <==> forall k :: 0 <= k <= n ==> WithinAllowance(c, trace, k, n)
  {
    var least := LevelIsClosedForm(c, trace, n);
    AdmittedIffLevel(c, None, trace, n);
    hide AdmittedAt, LevelAt, HistoryCap, WithinAllowance;
    forall k | 0 <= k <= n
      ensures WithinAllowance(c, trace, k, n) <==> c.window <= HistoryCap(c, None, trace, k, n)
    {
      WithinAllowanceIsCap(c, trace, k, n);
    }
  }

  /** The same while Redis drops keys, when the burst is at most twice the limit. */
  lemma DecidedByHistoryWithExpiry(c: Config, trace: seq<Tick>, n: nat)
    requires n < |trace| && c.burst <= 2 * c.limit && LegalExpiry(c, None, trace)
    ensures AdmittedAt(c, None, trace, n) <==> forall k :: 0 <= k <= n ==> WithinAllowance(c, trace, k, n)
  {
    ExpiryIsTransparent(c, None, trace, n);
    DecidedByHistory(c, Unexpired(trace), n);
    forall k | 0 <= k <= n
      ensures WithinAllowance(c, trace, k, n) == WithinAllowance(c, Unexpired(trace), k, n)
    {
      UnexpiredCounts(c, None, trace, k, n);
      UnexpiredForward(trace, k, n);
    }
    hide WithinAllowance, Step, SlotAt, LegalExpiry;
  }

  // ------------------------------------------------------------- key expiry

  lemma DefaultBurstHidesExpiry(limit: int, window: int, burst: int)
    requires limit >= 1 && window >= 1
    ensures burst <= 0 ==> New(limit, window, burst).burst <= 2 * New(limit, window, burst).limit
  {
  }

  /** Until the deadline twice the limit of tokens comes back. */
  lemma DeadlineRefill(c: Config)
    ensures Refill(c, 2 * c.window) == Price(c, 2 * c.limit)
  {
    RefillIsProduct(c, 2 * c.window);
    PriceIsProduct(c, 2 * c.limit);
    hide Price, Refill;
  }

  /** A bucket left alone until its deadline has refilled to the brim, if the burst is small enough. */
  lemma FullAtDeadline(c: Config, b: Bucket, now: int)
    requires ValidBucket(c, b) && c.burst <= 2 * c.limit && now >= b.expireAt
    ensures Level(c, Some(b), now) == Capacity(c)
  {
    var idle := Advance(b.ts, now);
    RefillAdds(c, 2 * c.window, idle - 2 * c.window);
    DeadlineRefill(c);
    PriceAdds(c, c.burst, 2 * c.limit - c.burst);
  }

  /** Dropping expired keys changes no stored state and no reply, when burst <= 2 * limit. */
  lemma {:induction false} ExpiryIsTransparent(c: Config, start: Option<Bucket>, trace: seq<Tick>, n: nat)
    requires n <= |trace| && ValidSlot(c, start)
    requires c.burst <= 2 * c.limit && LegalExpiry(c, start, trace)
    ensures SlotAt(c, start, trace, n) == SlotAt(c, start, Unexpired(trace), n)
    ensures n < |trace| ==> ReplyAt(c, start, trace, n) == ReplyAt(c, start, Unexpired(trace), n)
  {
    hide Step, LegalExpiry, ValidBucket;
    if n > 0 {
      ExpiryIsTransparent(c, start, trace, n - 1);
      ExpiredStepUnseen(c, start, trace, n - 1);
    }
    if n < |trace| {
      ExpiredStepUnseen(c, start, trace, n);
    }
  }

  lemma ExpiredStepUnseen(c: Config, start: Option<Bucket>, trace: seq<Tick>, n: nat)
    requires n < |trace| && ValidSlot(c, start)
    requires c.burst <= 2 * c.limit && LegalExpiry(c, start, trace)
    ensures Step(c, Visible(SlotAt(c, start, trace, n), trace[n]), trace[n].now)
         == Step(c, SlotAt(c, start, trace, n), trace[n].now)
  {
    SlotAtValid(c, start, trace, n);
    hide Refill, Price;
    var slot := SlotAt(c, start, trace, n);
    if trace[n].expired && slot.Some? {
      FullAtDeadline(c, slot.value, trace[n].now);
    }
  }

  lemma {:induction false} UnexpiredCounts(c: Config, start: Option<Bucket>, trace: seq<Tick>, i: nat, j: nat)
    requires i <= j <= |trace| && ValidSlot(c, start)
    requires c.burst <= 2 * c.limit && LegalExpiry(c, start, trace)
    ensures Admitted(c, start, trace, i, j) == Admitted(c, start, Unexpired(trace), i, j)
  {
    hide Step, LegalExpiry, ValidBucket, SlotAt;
    if i < j {
      UnexpiredCounts(c, start, trace, i, j - 1);
      ExpiryIsTransparent(c, start, trace, j - 1);
    }
  }

  lemma {:induction false} UnexpiredForward(trace: seq<Tick>, i: nat, j: nat)
    requires i <= j < |trace|
    ensures Forward(trace, i, j) == Forward(Unexpired(trace), i, j)
  {
    if i < j {
      UnexpiredForward(trace, i, j - 1);
    }
  }

  /** m requests carrying the same clock. */
  function Batch(now: int, m: nat): seq<Tick> {
    seq(m, _ => Tick(now, false))
  }

  lemma TakeOne(c: Config, slot: Option<Bucket>, now: int, k: nat)
    requires Level(c, slot, now) == Price(c, k + 1)
    ensures Step(c, slot, now) == Outcome(Bucket(Price(c, k), now, now + 2 * c.window), Reply(true, 0))
  {
    PriceAdds(c, k, 1);
    hide Level, Price;
  }

  lemma SameInstant(c: Config, b: Bucket, k: nat)
    requires b.tokens == Price(c, k) && k <= c.burst
    ensures Level(c, Some(b), b.ts) == Price(c, k)
  {
    PriceAdds(c, k, c.burst - k);
    RefillAdds(c, 0, 0);
    hide Price, Refill;
  }

  /** A batch at one instant takes one token a request for as long as there are whole tokens. */
  lemma {:induction false} BatchDrains(c: Config, start: Option<Bucket>, trace: seq<Tick>, i: nat, j: nat, budget: nat)
    requires i < j <= |trace| && j - i <= budget <= c.burst
    requires forall m :: i < m < j ==> trace[m] == Tick(trace[i].now, false)
    requires LevelAt(c, start, trace, i) == Price(c, budget)
    ensures SlotAt(c, start, trace, j) ==
            Some(Bucket(Price(c, budget - (j - i)), trace[i].now, trace[i].now + 2 * c.window))
    ensures forall m :: i <= m < j ==> AdmittedAt(c, start, trace, m)
    decreases j
  {
    hide Step, Level, Price;
    if j > i + 1 {
      BatchDrains(c, start, trace, i, j - 1, budget);
      SameInstant(c, SlotAt(c, start, trace, j - 1).value, budget - (j - 1 - i));
    }
    var seen := Visible(SlotAt(c, start, trace, j - 1), trace[j - 1]);
    TakeOne(c, seen, trace[i].now, budget - (j - i));
  }

  /** A request that finds less than one token is denied. */
  lemma EmptyDenies(c: Config, start: Option<Bucket>, trace: seq<Tick>, n: nat)
    requires n < |trace| && !trace[n].expired
    requires SlotAt(c, start, trace, n) == Some(Bucket(Price(c, 0), trace[n].now, trace[n].now + 2 * c.window))
    ensures !AdmittedAt(c, start, trace, n)
  {
    SameInstant(c, SlotAt(c, start, trace, n).value, 0);
    PriceAdds(c, 0, 0);
    hide Price, Level, SlotAt;
  }

  /** A new limiter admits exactly its burst at one instant, and the burst is the limit if none is given. */
  lemma NewAdmitsBurst(limit: int, window: int, burst: int, now: int, n: nat, m: nat)
    requires limit >= 1 && window >= 1 && m < n
    ensures AdmittedAt(New(limit, window, burst), None, Batch(now, n), m) <==> m < (if burst <= 0 then limit else burst)
  {
    var c, trace := New(limit, window, burst), Batch(now, n);
    FirstLevel(c, trace);
    if m < c.burst {
      BatchDrains(c, None, trace, 0, m + 1, c.burst);
    } else {
      BatchEmpties(c, trace, m);
      EmptyDenies(c, None, trace, m);
    }
  }

  /** After the burst the bucket stays empty for the rest of the batch. */
  lemma {:induction false} BatchEmpties(c: Config, trace: seq<Tick>, m: nat)
    requires c.burst <= m <= |trace| && trace != []
    requires forall i :: 0 <= i < |trace| ==> trace[i] == Tick(trace[0].now, false)
    ensures SlotAt(c, None, trace, m) == Some(Bucket(Price(c, 0), trace[0].now, trace[0].now + 2 * c.window))
  {
    if m == c.burst {
      FirstLevel(c, trace);
      hide LevelAt, AdmittedAt, Price;
      BatchDrains(c, None, trace, 0, m, c.burst);
    } else {
      BatchEmpties(c, trace, m - 1);
      EmptyDenies(c, None, trace, m - 1);
      SameInstant(c, SlotAt(c, None, trace, m - 1).value, 0);
      hide Level, Price;
      SlotAtNext(c, None, trace, m - 1);
      DeniedStep(c, SlotAt(c, None, trace, m - 1), trace[0].now);
    }
  }

  lemma {:induction false} SlotAtPrefix(c: Config, start: Option<Bucket>, a: seq<Tick>, b: seq<Tick>, n: nat)
    requires n <= |a| && n <= |b| && a[..n] == b[..n]
    ensures SlotAt(c, start, a, n) == SlotAt(c, start, b, n)
  {
    if n > 0 {
      assert a[..n - 1] == a[..n][..n - 1] == b[..n][..n - 1] == b[..n - 1];
      assert a[n - 1] == a[..n][n - 1] == b[..n][n - 1] == b[n - 1];
      SlotAtPrefix(c, start, a, b, n - 1);
    }
  }

  /** With a larger burst a dropped key does change a decision: drain the bucket, wait for the
      deadline, and ask for 2 * limit + 1 tokens at once. */
  lemma {:induction false} LargeBurstSeesExpiry(c: Config) returns (trace: seq<Tick>, n: nat)
    requires c.burst > 2 * c.limit
    ensures n < |trace| && LegalExpiry(c, None, trace)
    ensures forall m :: 0 <= m <= n ==> AdmittedAt(c, None, trace, m)
    ensures !AdmittedAt(c, None, Unexpired(trace), n)
  {
    hide Step, Level, Price, LegalExpiry, SlotAt, AdmittedAt;
    var late := 2 * c.window;
    trace := Batch(0, c.burst) + [Tick(late, true)] + Batch(late, 2 * c.limit);
    n := c.burst + 2 * c.limit;
    FirstLevel(c, trace);
    BatchDrains(c, None, trace, 0, c.burst, c.burst);
    DrainedRefill(c, trace, c.burst);
    BatchDrains(c, None, trace, c.burst, n + 1, c.burst);
    LegalAtDeadline(c, trace);
    var plain := Unexpired(trace);
    FirstLevel(c, plain);
    BatchDrains(c, None, plain, 0, c.burst, c.burst);
    DrainedRefill(c, plain, c.burst);
    BatchDrains(c, None, plain, c.burst, n, 2 * c.limit);
    EmptyDenies(c, None, plain, n);
  }

  /** An emptied bucket found at its deadline holds 2 * limit tokens, a dropped one holds the burst. */
  lemma DrainedRefill(c: Config, trace: seq<Tick>, n: nat)
    requires n < |trace| && trace[n].now == 2 * c.window && c.burst > 2 * c.limit
    requires SlotAt(c, None, trace, n) == Some(Bucket(Price(c, 0), 0, 2 * c.window))
    ensures LevelAt(c, None, trace, n) == Price(c, if trace[n].expired then c.burst else 2 * c.limit)
  {
    hide SlotAt;
    DeadlineRefill(c);
    PriceAdds(c, 0, 0);
    PriceAdds(c, 2 * c.limit, c.burst - 2 * c.limit);
    hide Price, Refill;
  }

  lemma LegalAtDeadline(c: Config, trace: seq<Tick>)
    requires forall i :: 0 <= i < |trace| && trace[i].expired ==>
      SlotAt(c, None, trace, i) == Some(Bucket(Price(c, 0), 0, 2 * c.window)) && trace[i].now == 2 * c.window
    ensures LegalExpiry(c, None, trace)
  {
  }

  /** Key expiry is unobservable exactly when the burst is at most twice the limit. */
  lemma ExpiryUnseenIffSmallBurst(c: Config)
    ensures (forall trace, n: nat :: n < |trace| && LegalExpiry(c, None, trace) ==>
               AdmittedAt(c, None, trace, n) == AdmittedAt(c, None, Unexpired(trace), n))
            <==> c.burst <= 2 * c.limit
  {
    if c.burst <= 2 * c.limit {
      forall trace, n: nat | n < |trace| && LegalExpiry(c, None, trace)
        ensures AdmittedAt(c, None, trace, n) == AdmittedAt(c, None, Unexpired(trace), n)
      {
        ExpiryIsTransparent(c, None, trace, n);
      }
    } else {
      var trace, n := LargeBurstSeesExpiry(c);
    }
  }

  // -------------------------------------------------------------- envelopes

  /** A request spends what it is charged: the level it found is what it leaves plus its price. */
  lemma StepSpends(c: Config, slot: Option<Bucket>, now: int)
    ensures Step(c, slot, now).bucket.tokens + (if Step(c, slot, now).reply.allowed then c.window else 0)
         == Level(c, slot, now) <= Capacity(c)
    ensures slot.Some? ==> Level(c, slot, now) <= slot.value.tokens + Refill(c, Advance(slot.value.ts, now))
  {
  }

  /** Any clock, no expiry: a run of requests admits at most burst + rate * (forward clock moves). */
  lemma {:induction false} SkewEnvelope(c: Config, start: Option<Bucket>, trace: seq<Tick>, i: nat, j: nat)
    requires i < j <= |trace| && ValidSlot(c, start) && NoExpiry(trace)
    ensures 0 <= SlotAt(c, start, trace, j).value.tokens
    ensures Price(c, Admitted(c, start, trace, i, j)) + SlotAt(c, start, trace, j).value.tokens
         <= Capacity(c) + Refill(c, Forward(trace, i, j - 1))
  {
    hide Step, Level, Price, Refill, Advance;
    SlotAtValid(c, start, trace, j);
    SlotAtValid(c, start, trace, j - 1);
    StepSpends(c, SlotAt(c, start, trace, j - 1), trace[j - 1].now);
    PriceAdds(c, Admitted(c, start, trace, i, j - 1), 1);
    if j > i + 1 {
      SkewEnvelope(c, start, trace, i, j - 1);
      RefillAdds(c, Forward(trace, i, j - 2), Advance(trace[j - 2].now, trace[j - 1].now));
    }
  }

  /** On a clock that never goes back the envelope is the usual burst + rate * elapsed time. */
  lemma {:induction false} ElapsedEnvelope(c: Config, start: Option<Bucket>, trace: seq<Tick>, i: nat, j: nat)
    requires i < j <= |trace| && ValidSlot(c, start) && NoExpiry(trace) && Monotone(trace)
    ensures Price(c, Admitted(c, start, trace, i, j))
         <= Capacity(c) + Refill(c, trace[j - 1].now - trace[i].now)
  {
    SkewEnvelope(c, start, trace, i, j);
    ForwardTelescopes(trace, i, j - 1);
    hide Price, Refill, Admitted, SlotAt;
  }

  /** Twice the growth of max(limit, burst / 2) units a millisecond. */
  function Growth(c: Config, ms: nat): nat {
    if ms == 0 then 0 else Growth(c, ms - 1) + Max(2 * c.limit, c.burst)
  }

  lemma {:induction false} GrowthIsProduct(c: Config, ms: nat)
    ensures Growth(c, ms) == Max(2 * c.limit, c.burst) * ms
  {
    if ms > 0 {
      GrowthIsProduct(c, ms - 1);
    }
  }

  lemma {:induction false} GrowthAdds(c: Config, m: nat, n: nat)
    ensures Growth(c, m + n) == Growth(c, m) + Growth(c, n)
    ensures 2 * Refill(c, n) <= Growth(c, n)
  {
    if n > 0 {
      GrowthAdds(c, m, n - 1);
    }
  }

  /** Until the deadline the faster rate fills an empty bucket. */
  lemma GrowthFills(c: Config, ms: nat)
    requires ms >= 2 * c.window
    ensures 2 * Capacity(c) <= Growth(c, ms)
  {
    GrowthAdds(c, 2 * c.window, ms - 2 * c.window);
    GrowthIsProduct(c, 2 * c.window);
    PriceIsProduct(c, c.burst);
    hide Price, Growth;
    FasterIsMore(Max(2 * c.limit, c.burst), c.burst, c.window);
  }

  lemma FasterIsMore(fast: nat, slow: nat, w: nat)
    requires fast >= slow
    ensures fast * (2 * w) >= 2 * (w * slow)
  {
    assert fast * (2 * w) >= slow * (2 * w);
  }

  /** A dropped key jumps to a full bucket, but only after time enough for the faster rate to fill it. */
  lemma DropGrows(c: Config, b: Bucket, tick: Tick)
    requires ValidBucket(c, b) && (tick.expired ==> tick.now >= b.expireAt)
    ensures 2 * Level(c, Visible(Some(b), tick), tick.now) <= 2 * b.tokens + Growth(c, Advance(b.ts, tick.now))
  {
    GrowthAdds(c, 0, Advance(b.ts, tick.now));
    if tick.expired {
      GrowthFills(c, Advance(b.ts, tick.now));
    }
    hide Growth, Price, Refill;
  }

  /** With keys being dropped, for any burst: admissions <= burst + max(limit/window, burst/(2 window)) * time. */
  lemma {:induction false} ExpiryEnvelope(c: Config, start: Option<Bucket>, trace: seq<Tick>, i: nat, j: nat)
    requires i < j <= |trace| && ValidSlot(c, start) && LegalExpiry(c, start, trace)
    ensures 0 <= SlotAt(c, start, trace, j).value.tokens
    ensures 2 * Price(c, Admitted(c, start, trace, i, j)) + 2 * SlotAt(c, start, trace, j).value.tokens
         <= 2 * Capacity(c) + Growth(c, Forward(trace, i, j - 1))
  {
    hide Step, Level, Price, Refill, Advance, Growth;
    SlotAtValid(c, start, trace, j);
    SlotAtValid(c, start, trace, j - 1);
    StepSpends(c, Visible(SlotAt(c, start, trace, j - 1), trace[j - 1]), trace[j - 1].now);
    PriceAdds(c, Admitted(c, start, trace, i, j - 1), 1);
    if j > i + 1 {
      ExpiryEnvelope(c, start, trace, i, j - 1);
      DropGrows(c, SlotAt(c, start, trace, j - 1).value, trace[j - 1]);
      GrowthAdds(c, Forward(trace, i, j - 2), Advance(trace[j - 2].now, trace[j - 1].now));
    }
  }

  // ------------------------------------------------------ greedy optimality

  /** The level a bucket with the same burst and rate would have, had `choice` decided instead. */
  function ChoiceLevel(c: Config, trace: seq<Tick>, choice: seq<bool>, n: nat): int
    requires n < |trace| && n <= |choice|
  {
    if n == 0 then Capacity(c)
    else Min(Capacity(c),
             ChoiceLevel(c, trace, choice, n - 1) - (if choice[n - 1] then c.window else 0)
             + Refill(c, Advance(trace[n - 1].now, trace[n].now)))
  }

  /** The choice never admits a request its bucket cannot pay for. */
  predicate Affordable(c: Config, trace: seq<Tick>, choice: seq<bool>)
    requires |choice| == |trace|
  {
    forall n :: 0 <= n < |trace| && choice[n] ==> ChoiceLevel(c, trace, choice, n) >= c.window
  }

  function Chosen(choice: seq<bool>, n: nat): nat
    requires n <= |choice|
  {
    if n == 0 then 0 else Chosen(choice, n - 1) + (if choice[n - 1] then 1 else 0)
  }

  /** The decisions of the script on a trace. */
  function Decisions(c: Config, trace: seq<Tick>): (r: seq<bool>)
    ensures |r| == |trace|
    ensures forall i :: 0 <= i < |trace| ==> r[i] == AdmittedAt(c, None, trace, i)
  {
    seq(|trace|, i requires 0 <= i < |trace| => AdmittedAt(c, None, trace, i))
  }

  lemma ChoiceLevelCapped(c: Config, trace: seq<Tick>, choice: seq<bool>, n: nat)
    requires n < |trace| && n <= |choice|
    ensures ChoiceLevel(c, trace, choice, n) <= Capacity(c)
  {
  }

  /** The lead in admissions never goes negative, and it always makes up for a lower level. A dropped
      key only raises the level of the script, to what no choice can exceed. */
  lemma {:induction false} GreedyLead(c: Config, trace: seq<Tick>, choice: seq<bool>, n: nat)
    requires |choice| == |trace| && n < |trace| && Affordable(c, trace, choice)
    ensures Chosen(choice, n) <= Admitted(c, None, trace, 0, n)
    ensures ChoiceLevel(c, trace, choice, n) + Price(c, Chosen(choice, n))
         <= LevelAt(c, None, trace, n) + Price(c, Admitted(c, None, trace, 0, n))
  {
    hide LevelAt, AdmittedAt, Price, Refill, Advance, Affordable;
    if n == 0 {
      FirstLevel(c, trace);
    } else {
      GreedyLead(c, trace, choice, n - 1);
      LevelNext(c, None, trace, n - 1);
      ChoiceLevelCapped(c, trace, choice, n);
      GreedyLeadStep(c, trace, choice, n - 1);
      PriceAdds(c, Chosen(choice, n - 1), 1);
      PriceAdds(c, Admitted(c, None, trace, 0, n - 1), 1);
      PriceAdds(c, Chosen(choice, n), Admitted(c, None, trace, 0, n) - Chosen(choice, n));
    }
  }

  /** The choice can outspend the script only while it is behind. */
  lemma {:induction false} GreedyLeadStep(c: Config, trace: seq<Tick>, choice: seq<bool>, n: nat)
    requires |choice| == |trace| && n < |trace| && Affordable(c, trace, choice)
    requires Chosen(choice, n) <= Admitted(c, None, trace, 0, n)
    requires ChoiceLevel(c, trace, choice, n) + Price(c, Chosen(choice, n))
          <= LevelAt(c, None, trace, n) + Price(c, Admitted(c, None, trace, 0, n))
    ensures Chosen(choice, n + 1) <= Admitted(c, None, trace, 0, n + 1)
  {
    AdmittedIffLevel(c, None, trace, n);
    hide LevelAt, AdmittedAt, Price, Refill, Advance, ChoiceLevel;
  }

  lemma {:induction false} OwnDecisionsLevel(c: Config, trace: seq<Tick>, n: nat)
    requires n < |trace| && NoExpiry(trace)
    ensures ChoiceLevel(c, trace, Decisions(c, trace), n) == LevelAt(c, None, trace, n)
  {
    if n > 0 {
      OwnDecisionsLevel(c, trace, n - 1);
      LevelNext(c, None, trace, n - 1);
    }
  }

  /** Whatever keys Redis drops, at its deadline or before, and for any burst: no affordable choice
      admits more requests than the script on any prefix. */
  lemma {:induction false} GreedyIsOptimalWithExpiry(c: Config, trace: seq<Tick>, choice: seq<bool>, n: nat)
    requires |choice| == |trace| && n <= |trace| && Affordable(c, trace, choice)
    ensures Chosen(choice, n) <= Admitted(c, None, trace, 0, n)
  {
    hide Affordable, ChoiceLevel, LevelAt, AdmittedAt, Price;
    if n > 0 {
      GreedyLead(c, trace, choice, n - 1);
      GreedyLeadStep(c, trace, choice, n - 1);
    }
  }

  /** While no key is dropped the script's own decisions are affordable, so that admitting greedily
      is a maximum, not just an upper bound. */
  lemma {:induction false} GreedyIsOptimal(c: Config, trace: seq<Tick>)
    requires NoExpiry(trace)
    ensures forall choice: seq<bool>, n: nat :: |choice| == |trace| && n <= |trace| && Affordable(c, trace, choice) ==>
              Chosen(choice, n) <= Admitted(c, None, trace, 0, n)
    ensures Affordable(c, trace, Decisions(c, trace))
    ensures forall n: nat :: n <= |trace| ==>
              Chosen(Decisions(c, trace), n) == Admitted(c, None, trace, 0, n)
  {
    forall choice: seq<bool>, n: nat | |choice| == |trace| && n <= |trace| && Affordable(c, trace, choice)
      ensures Chosen(choice, n) <= Admitted(c, None, trace, 0, n)
    {
      GreedyIsOptimalWithExpiry(c, trace, choice, n);
    }
    forall n | 0 <= n < |trace|
      ensures ChoiceLevel(c, trace, Decisions(c, trace), n) == LevelAt(c, None, trace, n)
    {
      OwnDecisionsLevel(c, trace, n);
    }
    forall n: nat | n <= |trace|
      ensures Chosen(Decisions(c, trace), n) == Admitted(c, None, trace, 0, n)
    {
      OwnDecisionsCount(c, trace, n);
    }
  }

  lemma {:induction false} OwnDecisionsCount(c: Config, trace: seq<Tick>, n: nat)
    requires n <= |trace|
    ensures Chosen(Decisions(c, trace), n) == Admitted(c, None, trace, 0, n)
  {
    if n > 0 {
      OwnDecisionsCount(c, trace, n - 1);
    }
  }

  /** Under expiry the script is a maximum too, its decisions being affordable in every run, exactly
      when the burst is at most twice the limit; above, a dropped key is a bonus no choice can match. */
  lemma {:induction false} GreedyIsAffordableIffSmallBurst(c: Config)
    ensures (forall trace :: LegalExpiry(c, None, trace) ==> Affordable(c, trace, Decisions(c, trace)))
            <==> c.burst <= 2 * c.limit
  {
    if c.burst <= 2 * c.limit {
      forall trace | LegalExpiry(c, None, trace)
        ensures Affordable(c, trace, Decisions(c, trace))
      {
        SmallBurstAffordable(c, trace);
      }
    } else {
      var trace, n := LargeBurstSeesExpiry(c);
      LargeBurstUnaffordable(c, trace, n);
    }
  }

  lemma SmallBurstAffordable(c: Config, trace: seq<Tick>)
    requires c.burst <= 2 * c.limit && LegalExpiry(c, None, trace)
    ensures Affordable(c, trace, Decisions(c, trace))
  {
    var plain := Unexpired(trace);
    GreedyIsOptimal(c, plain);
    forall n | 0 <= n < |trace|
      ensures Decisions(c, trace)[n] == Decisions(c, plain)[n]
    {
      ExpiryIsTransparent(c, None, trace, n);
    }
    assert Decisions(c, trace) == Decisions(c, plain);
    AffordableUnexpired(c, trace, Decisions(c, plain));
    hide Affordable, ChoiceLevel, LegalExpiry, AdmittedAt;
  }

  /** A run that admits all of n + 1 requests, of which an undropped bucket denies the last. */
  lemma LargeBurstUnaffordable(c: Config, trace: seq<Tick>, n: nat)
    requires n < |trace| && forall m :: 0 <= m <= n ==> AdmittedAt(c, None, trace, m)
    requires !AdmittedAt(c, None, Unexpired(trace), n)
    ensures !Affordable(c, trace, Decisions(c, trace))
  {
    var plain, choice := Unexpired(trace), Decisions(c, trace);
    hide AdmittedAt, ChoiceLevel, Affordable, Chosen, Admitted;
    if Affordable(c, trace, choice) {
      AffordableUnexpired(c, trace, choice);
      GreedyIsOptimalWithExpiry(c, plain, choice, n + 1);
      OwnDecisionsCount(c, trace, n + 1);
      AllAdmitted(c, trace, n + 1);
      DeniedOnce(c, plain, n);
      assert false;
    }
  }

  /** What a choice can pay for does not depend on which keys are dropped. */
  lemma AffordableUnexpired(c: Config, trace: seq<Tick>, choice: seq<bool>)
    requires |choice| == |trace|
    ensures Affordable(c, trace, choice) <==> Affordable(c, Unexpired(trace), choice)
  {
    forall m | 0 <= m < |trace|
      ensures ChoiceLevel(c, Unexpired(trace), choice, m) == ChoiceLevel(c, trace, choice, m)
    {
      ChoiceIgnoresExpiry(c, trace, choice, m);
    }
    hide ChoiceLevel;
  }

  lemma DeniedOnce(c: Config, trace: seq<Tick>, n: nat)
    requires n < |trace| && !AdmittedAt(c, None, trace, n)
    ensures Admitted(c, None, trace, 0, n + 1) <= n
  {
    hide AdmittedAt;
    AdmittedAtMost(c, trace, n);
  }

  lemma {:induction false} AllAdmitted(c: Config, trace: seq<Tick>, n: nat)
    requires n <= |trace| && forall m :: 0 <= m < n ==> AdmittedAt(c, None, trace, m)
    ensures Admitted(c, None, trace, 0, n) == n
  {
    if n > 0 {
      AllAdmitted(c, trace, n - 1);
    }
  }

  lemma {:induction false} AdmittedAtMost(c: Config, trace: seq<Tick>, n: nat)
    requires n <= |trace|
    ensures Admitted(c, None, trace, 0, n) <= n
  {
    if n > 0 {
      AdmittedAtMost(c, trace, n - 1);
    }
  }

  lemma {:induction false} ChoiceIgnoresExpiry(c: Config, trace: seq<Tick>, choice: seq<bool>, n: nat)
    requires n < |trace| && n <= |choice|
    ensures ChoiceLevel(c, Unexpired(trace), choice, n) == ChoiceLevel(c, trace, choice, n)
  {
    if n > 0 {
      ChoiceIgnoresExpiry(c, trace, choice, n - 1);
    }
  }

  // --------------------------------------------------- denials are invisible

  /** The first n requests without those that `keep` leaves out. */
  function Kept(trace: seq<Tick>, keep: seq<bool>, n: nat): (r: seq<Tick>)
    requires n <= |trace| == |keep|
    ensures |r| <= n
  {
    if n == 0 then [] else Kept(trace, keep, n - 1) + (if keep[n - 1] then [trace[n - 1]] else [])
  }

  /** Only requests that were denied are left out. */
  predicate OmitsOnlyDenied(c: Config, trace: seq<Tick>, keep: seq<bool>) {
    |keep| == |trace| && forall i :: 0 <= i < |trace| && !keep[i] ==> !AdmittedAt(c, None, trace, i)
  }

  lemma {:induction false} KeptPrefix(trace: seq<Tick>, keep: seq<bool>, n: nat, m: nat)
    requires n <= m <= |trace| == |keep|
    ensures |Kept(trace, keep, n)| <= |Kept(trace, keep, m)|
    ensures Kept(trace, keep, m)[..|Kept(trace, keep, n)|] == Kept(trace, keep, n)
  {
    if n < m {
      KeptPrefix(trace, keep, n, m - 1);
    }
  }

  /** Writing the level back at an intermediate time does not change what a later request finds. */
  lemma CheckpointUnseen(c: Config, slot: Option<Bucket>, mid: int, later: int)
    requires mid <= later && (slot.Some? ==> slot.value.ts <= mid)
    ensures Level(c, Some(Bucket(Level(c, slot, mid), mid, mid + 2 * c.window)), later) == Level(c, slot, later)
  {
    RefillAdds(c, if slot.Some? then mid - slot.value.ts else 0, later - mid);
    hide Refill, Price;
  }

  /** Exactly at which times a denial goes unnoticed: at all if its clock is the stored time stamp; from it on
      if its clock is ahead; and if it is behind, up to it and from when the bucket is full anyway. So it goes
      unnoticed by every request not before it if and only if its clock is not behind the time stamp. */
  lemma OneDenialExact(c: Config, b: Bucket, mid: int)
    requires ValidBucket(c, b) && !Step(c, Some(b), mid).reply.allowed
    ensures forall later :: SameLevel(c, Step(c, Some(b), mid).bucket, b, later) <==> UnnoticedAt(c, b, mid, later)
    ensures (forall later :: later >= mid ==> SameLevel(c, Step(c, Some(b), mid).bucket, b, later)) <==> b.ts <= mid
    ensures (forall later :: SameLevel(c, Step(c, Some(b), mid).bucket, b, later)) <==> b.ts == mid
  {
    hide Price, Refill, Level, Step, SameLevel;
    forall later
      ensures SameLevel(c, Step(c, Some(b), mid).bucket, b, later) <==> UnnoticedAt(c, b, mid, later)
    {
      DenialSeenAt(c, b, mid, later);
    }
    DenialSeenAt(c, b, mid, b.ts);
    DeniedLevel(c, b, b.ts, mid);
    if b.ts != mid {
      assert !UnnoticedAt(c, b, mid, b.ts);
    }
  }

  predicate UnnoticedAt(c: Config, b: Bucket, mid: int, later: int) {
    || b.ts == mid
    || b.ts < mid <= later
    || later <= mid < b.ts
    || (mid < b.ts && Level(c, Some(b), later) == Capacity(c))
  }

  /** No request at that time can tell the buckets apart. */
  predicate SameLevel(c: Config, a: Bucket, b: Bucket, later: int) {
    Level(c, Some(a), later) == Level(c, Some(b), later)
  }

  /** A denied request finds the bucket below one token, and so below its cap. */
  lemma DeniedLevel(c: Config, b: Bucket, earlier: int, mid: int)
    requires ValidBucket(c, b) && !Step(c, Some(b), mid).reply.allowed
    ensures Level(c, Some(b), mid) == b.tokens + Refill(c, Advance(b.ts, mid)) < c.window <= Capacity(c)
    ensures earlier <= b.ts ==> Level(c, Some(b), earlier) == b.tokens < Capacity(c)
  {
    LevelBounds(c, Some(b), mid);
    RefillAdds(c, 0, 0);
    hide Price, Refill;
  }

  lemma DenialSeenAt(c: Config, b: Bucket, mid: int, later: int)
    requires ValidBucket(c, b) && !Step(c, Some(b), mid).reply.allowed
    ensures SameLevel(c, Step(c, Some(b), mid).bucket, b, later) <==> UnnoticedAt(c, b, mid, later)
  {
    DeniedStep(c, Some(b), mid);
    DeniedLevel(c, b, mid, mid);
    RefillAdds(c, 0, 0);
    if b.ts < mid {
      if later >= mid {
        CheckpointUnseen(c, Some(b), mid, later);
      } else {
        RefillAdds(c, Advance(b.ts, later), mid - Max(b.ts, later));
      }
    } else if mid < later {
      RefillAdds(c, Advance(b.ts, later), later - mid - Advance(b.ts, later));
    }
    hide Price, Refill, Step;
  }

  /** The clock does not go back at a request that is left out, neither to it nor from it. */
  predicate ForwardAtOmitted(trace: seq<Tick>, keep: seq<bool>)
    requires |keep| == |trace|
  {
    forall i :: 0 <= i < |trace| && !keep[i] ==>
      (i > 0 ==> trace[i - 1].now <= trace[i].now) && (i + 1 < |trace| ==> trace[i].now <= trace[i + 1].now)
  }

  /** After any prefix the thinned run has a bucket no later request can tell from the full run's. */
  lemma {:induction false} SameLevelLater(c: Config, trace: seq<Tick>, keep: seq<bool>, n: nat, later: int)
    requires NoExpiry(trace) && OmitsOnlyDenied(c, trace, keep) && ForwardAtOmitted(trace, keep)
    requires n <= |trace| && (n > 0 && !keep[n - 1] ==> later >= trace[n - 1].now)
    ensures var kept := Kept(trace, keep, n);
      Level(c, SlotAt(c, None, kept, |kept|), later) == Level(c, SlotAt(c, None, trace, n), later)
  {
    hide Step, Level, SlotAt, Kept;
    EmptyRuns(c, trace, keep);
    if n > 0 {
      var now := trace[n - 1].now;
      SameLevelLater(c, trace, keep, n - 1, now);
      SlotAtValid(c, None, trace, n - 1);
      SlotAtNext(c, None, trace, n - 1);
      KeptNext(trace, keep, n - 1);
      var before := Kept(trace, keep, n - 1);
      var full, thin := SlotAt(c, None, trace, n - 1), SlotAt(c, None, before, |before|);
      if keep[n - 1] {
        SlotAtAppend(c, None, before, trace[n - 1]);
        SameLevelSameStep(c, full, thin, now);
      } else {
        assert before + [] == before;
        SameLevelLater(c, trace, keep, n - 1, later);
        DeniedStep(c, full, now);
        CheckpointUnseen(c, full, now, later);
      }
    }
  }

  lemma EmptyRuns(c: Config, trace: seq<Tick>, keep: seq<bool>)
    ensures |trace| == |keep| ==> Kept(trace, keep, 0) == []
    ensures SlotAt(c, None, trace, 0) == None && SlotAt(c, None, [], 0) == None
  {
  }

  lemma SlotAtNext(c: Config, start: Option<Bucket>, trace: seq<Tick>, n: nat)
    requires n < |trace|
    ensures SlotAt(c, start, trace, n + 1)
         == Some(Step(c, Visible(SlotAt(c, start, trace, n), trace[n]), trace[n].now).bucket)
    ensures AdmittedAt(c, start, trace, n)
         == Step(c, Visible(SlotAt(c, start, trace, n), trace[n]), trace[n].now).reply.allowed
  {
  }

  lemma SlotAtAppend(c: Config, start: Option<Bucket>, trace: seq<Tick>, tick: Tick)
    ensures SlotAt(c, start, trace + [tick], |trace| + 1)
         == Some(Step(c, Visible(SlotAt(c, start, trace, |trace|), tick), tick.now).bucket)
  {
    SlotAtPrefix(c, start, trace, trace + [tick], |trace|);
    SlotAtNext(c, start, trace + [tick], |trace|);
    hide Step, SlotAt;
  }

  lemma SameLevelSameStep(c: Config, a: Option<Bucket>, b: Option<Bucket>, now: int)
    requires Level(c, a, now) == Level(c, b, now)
    ensures Step(c, a, now) == Step(c, b, now) && Step(c, a, now).bucket.ts == now
  {
    hide Level;
  }

  lemma DeniedStep(c: Config, slot: Option<Bucket>, now: int)
    requires !Step(c, slot, now).reply.allowed
    ensures Step(c, slot, now).bucket == Bucket(Level(c, slot, now), now, now + 2 * c.window)
  {
    hide Level;
  }

  /** Leaving out any denied requests changes no other decision, although every denial rewrites the
      stored level and time stamp. Elsewhere the clock may go back as it likes. */
  lemma {:induction false} DenialsAreInvisible(c: Config, trace: seq<Tick>, keep: seq<bool>, i: nat)
    requires NoExpiry(trace) && OmitsOnlyDenied(c, trace, keep) && ForwardAtOmitted(trace, keep)
    requires i < |trace| && keep[i]
    ensures |Kept(trace, keep, i)| < |Kept(trace, keep, |trace|)|
    ensures Kept(trace, keep, |trace|)[|Kept(trace, keep, i)|] == trace[i]
    ensures ReplyAt(c, None, Kept(trace, keep, |trace|), |Kept(trace, keep, i)|) == ReplyAt(c, None, trace, i)
  {
    hide Step, Level, SlotAt, Kept, AdmittedAt;
    var all := Kept(trace, keep, |trace|);
    var before := Kept(trace, keep, i);
    KeptNext(trace, keep, i);
    KeptPrefix(trace, keep, i, |trace|);
    KeptPrefix(trace, keep, i + 1, |trace|);
    assert all[|before|] == all[..|Kept(trace, keep, i + 1)|][|before|] == trace[i];
    SlotAtPrefix(c, None, all, before, |before|);
    SameLevelLater(c, trace, keep, i, trace[i].now);
    SameLevelSameStep(c, SlotAt(c, None, before, |before|), SlotAt(c, None, trace, i), trace[i].now);
  }

  /** The same in the presence of dropped keys, on both sides, when the burst is small enough. */
  lemma {:induction false} DenialsAreInvisibleWithExpiry(c: Config, trace: seq<Tick>, keep: seq<bool>, i: nat, thinned: seq<Tick>)
    requires c.burst <= 2 * c.limit && OmitsOnlyDenied(c, trace, keep) && ForwardAtOmitted(trace, keep)
    requires LegalExpiry(c, None, trace) && LegalExpiry(c, None, thinned)
    requires Unexpired(thinned) == Kept(Unexpired(trace), keep, |trace|)
    requires i < |trace| && keep[i]
    ensures var k := |Kept(Unexpired(trace), keep, i)|;
      k < |thinned| && ReplyAt(c, None, thinned, k) == ReplyAt(c, None, trace, i)
  {
    forall n | 0 <= n < |trace|
      ensures AdmittedAt(c, None, trace, n) == AdmittedAt(c, None, Unexpired(trace), n)
    {
      ExpiryIsTransparent(c, None, trace, n);
    }
    DenialsAreInvisible(c, Unexpired(trace), keep, i);
    ExpiryIsTransparent(c, None, trace, i);
    ExpiryIsTransparent(c, None, thinned, |Kept(Unexpired(trace), keep, i)|);
  }

  /** If the clock goes back to a denial, the denial can be visible, whatever the configuration: it moves
      the time stamp back, and the next request refills the same window a second time. */
  lemma SkewedDenialIsVisible(c: Config) returns (trace: seq<Tick>, keep: seq<bool>)
    ensures NoExpiry(trace) && OmitsOnlyDenied(c, trace, keep)
    ensures |trace| >= 3 && forall i :: 0 <= i < |trace| ==> (keep[i] <==> i != |trace| - 2)
    ensures forall i :: 0 < i < |trace| ==> (trace[i - 1].now > trace[i].now <==> i == |trace| - 2)
    ensures AdmittedAt(c, None, trace, |trace| - 1)
    ensures var kept := Kept(trace, keep, |trace|);
      |kept| == |trace| - 1 && !AdmittedAt(c, None, kept, |kept| - 1)
  {
    hide Step, Level, Price, SlotAt, AdmittedAt, Kept;
    var b, w := c.burst, c.window;
    trace := Batch(w, b) + [Tick(0, false), Tick(w, false)];
    keep := seq(b, _ => true) + [false, true];
    FirstLevel(c, trace);
    BatchDrains(c, None, trace, 0, b, b);
    DenialBackdates(c, trace, b);
    KeptAll(trace, keep, b);
    KeptNext(trace, keep, b);
    KeptNext(trace, keep, b + 1);
    var kept := Kept(trace, keep, b + 2);
    assert kept == trace[..b] + [Tick(w, false)];
    SlotAtPrefix(c, None, kept, trace, b);
    EmptyDenies(c, None, kept, b);
  }

  /** An empty bucket denies a request whose clock is a window behind, and takes over that clock. */
  lemma DenialBackdates(c: Config, trace: seq<Tick>, n: nat)
    requires n + 1 < |trace| && trace[n] == Tick(0, false) && trace[n + 1] == Tick(c.window, false)
    requires SlotAt(c, None, trace, n) == Some(Bucket(Price(c, 0), c.window, 3 * c.window))
    ensures !AdmittedAt(c, None, trace, n) && AdmittedAt(c, None, trace, n + 1)
  {
    PriceAdds(c, 0, 0);
    RefillAdds(c, 0, c.window);
    LevelBounds(c, None, 0);
    AdmittedIffLevel(c, None, trace, n);
    AdmittedIffLevel(c, None, trace, n + 1);
    LevelNext(c, None, trace, n);
    assert LevelAt(c, None, trace, n) == 0 by {
      hide Refill, Price;
    }
    hide AdmittedAt, LevelAt, SlotAt, Refill, Price;
  }

  lemma KeptNext(trace: seq<Tick>, keep: seq<bool>, n: nat)
    requires n < |trace| == |keep|
    ensures Kept(trace, keep, n + 1) == Kept(trace, keep, n) + (if keep[n] then [trace[n]] else [])
  {
  }

  lemma {:induction false} KeptAll(trace: seq<Tick>, keep: seq<bool>, n: nat)
    requires n <= |trace| == |keep| && forall i :: 0 <= i < n ==> keep[i]
    ensures Kept(trace, keep, n) == trace[..n]
  {
    if n > 0 {
      KeptAll(trace, keep, n - 1);
    }
  }

  // -------------------------------------------------------------- exact waits

  /** After a denial with wait w, a request d milliseconds later, whether or not the key was dropped
      in between, is admitted exactly when d >= w. */
  lemma WaitIsExact(c: Config, slot: Option<Bucket>, now: int, d: nat, expired: bool)
    requires ValidSlot(c, slot) && !Step(c, slot, now).reply.allowed
    requires expired ==> now + d >= Step(c, slot, now).bucket.expireAt
    ensures 1 <= Step(c, slot, now).reply.wait <= c.window
    ensures Step(c, Visible(Some(Step(c, slot, now).bucket), Tick(now + d, expired)), now + d).reply.allowed
            <==> d >= Step(c, slot, now).reply.wait
  {
    LevelBounds(c, slot, now);
    var need := c.window - Level(c, slot, now);
    WaitIsLeast(c, need, d);
    WaitIsLeast(c, need, c.window);
    WaitIsLeast(c, need, 0);
    RefillAdds(c, 0, c.window);
    hide Refill, Price, WaitFor;
  }

  /** The Retry-After header in whole seconds (section 10.2.3 of RFC 9110). */
  function RetryAfterSeconds(waitMs: nat): nat {
    waitMs / 1000 + 1
  }

  /** The header strictly exceeds the wait by at most one second, so that a lone client that
      obeys it, however late it comes back, is admitted. */
  lemma ObedientClientIsAdmitted(c: Config, slot: Option<Bucket>, now: int, late: nat, expired: bool)
    requires ValidSlot(c, slot) && !Step(c, slot, now).reply.allowed
    requires Step(c, slot, now).reply.wait >= 0
    requires var back := now + 1000 * RetryAfterSeconds(Step(c, slot, now).reply.wait) + late;
      expired ==> back >= Step(c, slot, now).bucket.expireAt
    ensures var w := Step(c, slot, now).reply.wait;
      w < 1000 * RetryAfterSeconds(w) <= w + 1000
    ensures var back := now + 1000 * RetryAfterSeconds(Step(c, slot, now).reply.wait) + late;
      Step(c, Visible(Some(Step(c, slot, now).bucket), Tick(back, expired)), back).reply.allowed
  {
    var w := Step(c, slot, now).reply.wait;
    WaitIsExact(c, slot, now, 1000 * RetryAfterSeconds(w) + late, expired);
  }
}
