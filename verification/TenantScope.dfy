/** The lazy per-tenant cache: a map under a read-write lock, with a factory called outside the lock. */
module TenantScope {
  import opened Common

  type Tenant = string

  /** A pointer. */
  datatype Value = Nil | Ref(address: int)

  type Values = map<Tenant, Value>

  /** What the factory does: fail, or return a pointer, which may be nil. */
  datatype Supply = Fails | Makes(value: Value)

  datatype Reply = Nothing | Got(value: Value, ok: bool)

  const FAILED := Got(Nil, false)

  datatype Call = Put(tenant: Tenant, value: Value) | Get(tenant: Tenant) | Remove(tenant: Tenant)

  predicate Usable(supply: Supply) {
    supply.Makes? && supply.value != Nil
  }

  // ------------------------------------------------- the atomic map it should be

  datatype Result = Result(values: Values, reply: Reply)

  /** Get-or-create in one step: the factory matters only if the tenant has no value. */
  function Apply(values: Values, call: Call, supply: Supply): Result {
    match call
    case Put(tenant, value) => Result(values[tenant := value], Nothing)
    case Remove(tenant) => Result(values - {tenant}, Nothing)
    case Get(tenant) =>
      if tenant in values then Result(values, Got(values[tenant], true))
      else if Usable(supply) then Result(values[tenant := supply.value], Got(supply.value, true))
      else Result(values, FAILED)
  }

  /** What makes it a map with get-or-create: a Get finds what was put last, fails after a Remove unless its
      factory supplies a pointer, and finds from then on what was supplied; and no call disturbs another tenant. */
  lemma AtomicMapLaws(values: Values, tenant: Tenant, other: Tenant, value: Value, pointer: int, any: Supply, call: Call)
    ensures Apply(Apply(values, Put(tenant, value), any).values, Get(tenant), Makes(Ref(pointer))).reply == Got(value, true)
    ensures var removed := Apply(values, Remove(tenant), any).values;
      && Apply(removed, Get(tenant), Fails) == Result(removed, Got(Nil, false))
      && Apply(removed, Get(tenant), Makes(Nil)) == Result(removed, Got(Nil, false))
      && Apply(removed, Get(tenant), Makes(Ref(pointer))).reply == Got(Ref(pointer), true)
      && Apply(Apply(removed, Get(tenant), Makes(Ref(pointer))).values, Get(tenant), any).reply == Got(Ref(pointer), true)
    ensures call.tenant != tenant ==>
      Apply(Apply(values, call, any).values, Get(tenant), Fails).reply == Apply(values, Get(tenant), Fails).reply
    ensures !call.Get? ==> Apply(values, call, any).reply == Nothing
  {
  }

  // ----------------------------------------------------------- the critical sections

  class Scope {
    var values: Values
    const lazy: bool

    constructor (hasFactory: bool)
      ensures values == map[] && lazy == hasFactory
    {
      values := map[];
      lazy := hasFactory;
    }

    method Put(tenant: Tenant, value: Value)
      modifies this
      ensures values == old(values)[tenant := value]
    {
      values := values[tenant := value];
    }

    method Remove(tenant: Tenant)
      modifies this
      ensures values == old(values) - {tenant}
    {
      values := values - {tenant};
    }

    /** Under the read lock. */
    method Read(tenant: Tenant) returns (found: Option<Value>)
      ensures found == Lookup(values, tenant)
      ensures found == if tenant in values then Some(values[tenant]) else None
    {
      found := if tenant in values then Some(values[tenant]) else None;
    }

    /** Under the write lock: somebody else's value, if there is one by now, wins. */
    method Publish(tenant: Tenant, made: Value) returns (reply: Reply)
      modifies this
      ensures Result(values, reply) == Published(old(values), tenant, made)
      ensures tenant in old(values) ==> values == old(values) && reply == Got(old(values)[tenant], true)
      ensures tenant !in old(values) ==> values == old(values)[tenant := made] && reply == Got(made, true)
    {
      if tenant in values {
        return Got(values[tenant], true);
      }
      values := values[tenant := made];
      return Got(made, true);
    }

    /** Without interference the sections of Get add up to the atomic get-or-create. */
    method Get(tenant: Tenant, supply: Supply) returns (reply: Reply)
      modifies this
      ensures Result(values, reply) == Apply(old(values), Call.Get(tenant), if lazy then supply else Fails)
      ensures tenant in old(values) ==> values == old(values) && reply == Got(old(values)[tenant], true)
      ensures tenant !in old(values) && lazy && supply.Makes? && supply.value != Nil ==>
                values == old(values)[tenant := supply.value] && reply == Got(supply.value, true)
      ensures tenant !in old(values) && !(lazy && supply.Makes? && supply.value != Nil) ==>
                values == old(values) && reply == Got(Nil, false)
    {
      var found := Read(tenant);
      if found.Some? {
        return Got(found.value, true);
      }
      if !lazy {
        return FAILED;
      }
      if supply == Fails || supply.value == Nil {
        return FAILED;
      }
      reply := Publish(tenant, supply.value);
    }
  }

  function Lookup(values: Values, tenant: Tenant): Option<Value> {
    if tenant in values then Some(values[tenant]) else None
  }

  function Published(values: Values, tenant: Tenant, made: Value): Result {
    if tenant in values then Result(values, Got(values[tenant], true))
    else Result(values[tenant := made], Got(made, true))
  }

  // ------------------------------------------------------------- interleavings

  type Id = nat

  /** Pending: not in a critical section yet. Missed: read lock released, factory to be called.
      Made: factory returned, write lock to be taken. */
  datatype Pc = Pending | Missed | Made(value: Value) | Done(reply: Reply)

  datatype Op = Op(call: Call, pc: Pc)

  datatype Event =
    | Invoke(id: Id, call: Call)
    | Enter(id: Id)
    | Factory(id: Id, supply: Supply)
    | Publish(id: Id)

  /** An entry of the linearization log: an operation that could have taken effect here with this reply. */
  datatype Entry = Entry(id: Id, call: Call, supply: Supply, reply: Reply)

  datatype State = State(values: Values, ops: map<Id, Op>, log: seq<Entry>)

  const START := State(map[], map[], [])

  function Finish(s: State, id: Id, values: Values, reply: Reply, supply: Supply): State
    requires id in s.ops
  {
    var op := s.ops[id];
    State(values, s.ops[id := Op(op.call, Done(reply))], s.log + [Entry(id, op.call, supply, reply)])
  }

  /** The first critical section. A lazy Get that misses is logged as a failure in case it becomes one. */
  function DoEnter(lazy: bool, s: State, id: Id): State
    requires id in s.ops
  {
    var op := s.ops[id];
    match op.call
    case Put(tenant, value) => Finish(s, id, s.values[tenant := value], Nothing, Fails)
    case Remove(tenant) => Finish(s, id, s.values - {tenant}, Nothing, Fails)
    case Get(tenant) =>
      var found := Lookup(s.values, tenant);
      if found.Some? then Finish(s, id, s.values, Got(found.value, true), Fails)
      else if !lazy then Finish(s, id, s.values, FAILED, Fails)
      else State(s.values, s.ops[id := Op(op.call, Missed)], s.log + [Entry(id, op.call, Fails, FAILED)])
  }

  function Next(lazy: bool, s: State, e: Event): State {
    match e
    case Invoke(id, call) => if id in s.ops then s else s.(ops := s.ops[id := Op(call, Pending)])
    case Enter(id) => if id in s.ops && s.ops[id].pc == Pending then DoEnter(lazy, s, id) else s
    case Factory(id, supply) =>
      if id in s.ops && s.ops[id].pc == Missed then
        s.(ops := s.ops[id := Op(s.ops[id].call, if Usable(supply) then Made(supply.value) else Done(FAILED))])
      else s
    case Publish(id) =>
      if id in s.ops && s.ops[id].pc.Made? then
        var made := s.ops[id].pc.value;
        var result := Published(s.values, s.ops[id].call.tenant, made);
        Finish(s, id, result.values, result.reply, Makes(made))
      else s
  }

  /** Every interleaving of the critical sections and factory calls is some sequence of events. */
  function StateAt(lazy: bool, events: seq<Event>, n: nat): State
    requires n <= |events|
  {
    if n == 0 then START else Next(lazy, StateAt(lazy, events, n - 1), events[n - 1])
  }

  // ------------------------------------------------------------- linearization

  /** The map after running the entries one after the other on the atomic map, if every reply is right. */
  function Replay(entries: seq<Entry>): Option<Values> {
    if entries == [] then Some(map[])
    else
      var last := entries[|entries| - 1];
      match Replay(entries[..|entries| - 1])
      case None => None
      case Some(values) =>
        var result := Apply(values, last.call, last.supply);
        if result.reply == last.reply then Some(result.values) else None
  }

  /** An entry counts once its operation has returned with that reply. */
  predicate Counts(ops: map<Id, Op>, e: Entry) {
    e.id in ops && ops[e.id].pc == Done(e.reply)
  }

  function Counting(ops: map<Id, Op>, log: seq<Entry>): seq<Entry> {
    if log == [] then []
    else Counting(ops, log[..|log| - 1]) + (if Counts(ops, log[|log| - 1]) then [log[|log| - 1]] else [])
  }

  /** The linearization of a state. */
  function Linearization(s: State): seq<Entry> {
    Counting(s.ops, s.log)
  }

  lemma ReplayMore(log: seq<Entry>, e: Entry)
    ensures Replay(log + [e]) ==
            match Replay(log)
            case None => None
            case Some(values) =>
              var result := Apply(values, e.call, e.supply);
              if result.reply == e.reply then Some(result.values) else None
  {
    assert (log + [e])[..|log|] == log;
  }

  lemma CountingMore(ops: map<Id, Op>, log: seq<Entry>, e: Entry)
    ensures Counting(ops, log + [e]) == Counting(ops, log) + (if Counts(ops, e) then [e] else [])
  {
    assert (log + [e])[..|log|] == log;
  }

  /** Entries belong to operations that have begun, and say what these will or did reply. */
  predicate EntriesOwned(ops: map<Id, Op>, log: seq<Entry>) {
    forall k :: 0 <= k < |log| ==> Owned(ops, log[k])
  }

  predicate Owned(ops: map<Id, Op>, e: Entry) {
    && e.id in ops && e.call == ops[e.id].call && ops[e.id].pc != Pending
    && (e.reply == FAILED || ops[e.id].pc == Done(e.reply))
    && (e.reply == FAILED ==> e.supply == Fails && e.call.Get?)
  }

  /** An operation has a second entry only after a failure that did not come about. */
  predicate SecondEntries(log: seq<Entry>) {
    forall j, k :: 0 <= j < k < |log| && log[j].id == log[k].id ==> log[j].reply == FAILED && log[k].reply != FAILED
  }

  /** What an operation has replied, or would reply if its factory failed, is logged. */
  predicate Logged(ops: map<Id, Op>, log: seq<Entry>) {
    forall id :: id in ops && ops[id].pc != Pending ==> HasEntry(log, id, Expected(ops[id].pc))
  }

  predicate HasEntry(log: seq<Entry>, id: Id, reply: Reply) {
    exists k :: 0 <= k < |log| && log[k].id == id && log[k].reply == reply
  }

  function Expected(pc: Pc): Reply {
    if pc.Done? then pc.reply else FAILED
  }

  /** Only a Get waits for its factory, and only a usable pointer waits to be published. */
  predicate Shapes(ops: map<Id, Op>) {
    && (forall id :: id in ops && (ops[id].pc.Missed? || ops[id].pc.Made?) ==> ops[id].call.Get?)
    && (forall id :: id in ops && ops[id].pc.Made? ==> ops[id].pc.value != Nil)
  }

  predicate WellFormed(s: State) {
    && EntriesOwned(s.ops, s.log) && SecondEntries(s.log) && Logged(s.ops, s.log) && Shapes(s.ops)
    && Replay(s.log) == Some(s.values)
  }

  lemma AddEntry(log: seq<Entry>, e: Entry)
    requires SecondEntries(log)
    requires forall k :: 0 <= k < |log| && log[k].id == e.id ==> log[k].reply == FAILED && e.reply != FAILED
    ensures SecondEntries(log + [e])
  {
  }

  lemma HasEntryMore(log: seq<Entry>, e: Entry)
    ensures HasEntry(log + [e], e.id, e.reply)
    ensures forall id, reply :: HasEntry(log, id, reply) ==> HasEntry(log + [e], id, reply)
  {
    var more := log + [e];
    assert more[|log|] == e;
    forall id, reply | HasEntry(log, id, reply)
      ensures HasEntry(more, id, reply)
    {
      var k :| 0 <= k < |log| && log[k].id == id && log[k].reply == reply;
      assert more[k].id == id;
    }
  }

  /** Logging an entry that is right on the current map, while its operation moves on. */
  lemma StepWithEntry(s: State, id: Id, pc: Pc, values: Values, reply: Reply, supply: Supply)
    requires WellFormed(s) && id in s.ops && pc != Pending
    requires s.ops[id].pc == Pending || (s.ops[id].pc.Made? && reply != FAILED)
    requires Apply(s.values, s.ops[id].call, supply) == Result(values, reply)
    requires reply == FAILED ==> supply == Fails && s.ops[id].call.Get?
    requires pc == Done(reply) || (pc == Missed && reply == FAILED)
    ensures WellFormed(State(values, s.ops[id := Op(s.ops[id].call, pc)],
                             s.log + [Entry(id, s.ops[id].call, supply, reply)]))
  {
    var e := Entry(id, s.ops[id].call, supply, reply);
    ReplayMore(s.log, e);
    hide Replay, HasEntry, Apply, EntriesOwned, SecondEntries, Logged, Shapes;
    EntryOwned(s, e, pc);
    EntrySecond(s, e);
    EntryLogged(s, e, pc);
    EntryShapes(s, e, pc);
  }

  /** The entry says what its operation will or did reply. */
  predicate Fits(s: State, e: Entry, pc: Pc) {
    && e.id in s.ops && e.call == s.ops[e.id].call && pc != Pending
    && (s.ops[e.id].pc == Pending || (s.ops[e.id].pc.Made? && e.reply != FAILED))
    && (e.reply == FAILED ==> e.supply == Fails && e.call.Get?)
    && (pc == Done(e.reply) || (pc == Missed && e.reply == FAILED))
  }

  lemma EntryOwned(s: State, e: Entry, pc: Pc)
    requires Fits(s, e, pc) && EntriesOwned(s.ops, s.log)
    ensures EntriesOwned(s.ops[e.id := Op(e.call, pc)], s.log + [e])
  {
    var ops := s.ops[e.id := Op(e.call, pc)];
    forall k | 0 <= k < |s.log| + 1
      ensures Owned(ops, (s.log + [e])[k])
    {
      if k < |s.log| {
        assert Owned(s.ops, s.log[k]);
      }
    }
  }

  lemma EntrySecond(s: State, e: Entry)
    requires e.id in s.ops && EntriesOwned(s.ops, s.log) && SecondEntries(s.log)
    requires s.ops[e.id].pc == Pending || (s.ops[e.id].pc.Made? && e.reply != FAILED)
    ensures SecondEntries(s.log + [e])
  {
    forall k | 0 <= k < |s.log| && s.log[k].id == e.id
      ensures s.log[k].reply == FAILED && e.reply != FAILED
    {
      assert Owned(s.ops, s.log[k]);
    }
    AddEntry(s.log, e);
  }

  lemma EntryLogged(s: State, e: Entry, pc: Pc)
    requires Fits(s, e, pc) && Logged(s.ops, s.log)
    ensures Logged(s.ops[e.id := Op(e.call, pc)], s.log + [e])
  {
    HasEntryMore(s.log, e);
    hide HasEntry;
  }

  lemma EntryShapes(s: State, e: Entry, pc: Pc)
    requires Fits(s, e, pc) && Shapes(s.ops)
    ensures Shapes(s.ops[e.id := Op(e.call, pc)])
  {
  }

  lemma StepKeepsWellFormed(lazy: bool, s: State, e: Event)
    requires WellFormed(s)
    ensures WellFormed(Next(lazy, s, e))
  {
    hide HasEntry, Replay;
    if e.Invoke? {
      if e.id !in s.ops {
        InvokeKeeps(s, e.id, e.call);
      }
    } else if e.id in s.ops {
      var id, pc, call := e.id, s.ops[e.id].pc, s.ops[e.id].call;
      if e.Factory? && pc == Missed {
        FactoryKeeps(s, id, e.supply);
      } else if e.Publish? && pc.Made? {
        var result := Published(s.values, call.tenant, pc.value);
        StepWithEntry(s, id, Done(result.reply), result.values, result.reply, Makes(pc.value));
      } else if e.Enter? && pc == Pending {
        hide WellFormed;
        var result := Apply(s.values, call, Fails);
        StepWithEntry(s, id, if lazy && result.reply == FAILED then Missed else Done(result.reply),
                      result.values, result.reply, Fails);
      }
    }
  }

  lemma InvokeKeeps(s: State, id: Id, call: Call)
    requires WellFormed(s) && id !in s.ops
    ensures WellFormed(s.(ops := s.ops[id := Op(call, Pending)]))
  {
    hide HasEntry, Replay;
    forall k | 0 <= k < |s.log|
      ensures Owned(s.ops[id := Op(call, Pending)], s.log[k])
    {
      assert Owned(s.ops, s.log[k]);
    }
  }

  lemma FactoryKeeps(s: State, id: Id, supply: Supply)
    requires WellFormed(s) && id in s.ops && s.ops[id].pc == Missed
    ensures WellFormed(s.(ops := s.ops[id := Op(s.ops[id].call, if Usable(supply) then Made(supply.value) else Done(FAILED))]))
  {
    hide HasEntry, Replay;
    var ops := s.ops[id := Op(s.ops[id].call, if Usable(supply) then Made(supply.value) else Done(FAILED))];
    forall k | 0 <= k < |s.log|
      ensures Owned(ops, s.log[k])
    {
      assert Owned(s.ops, s.log[k]);
    }
  }

  lemma {:induction false} AlwaysWellFormed(lazy: bool, events: seq<Event>, n: nat)
    requires n <= |events|
    ensures WellFormed(StateAt(lazy, events, n))
  {
    if n > 0 {
      AlwaysWellFormed(lazy, events, n - 1);
      StepKeepsWellFormed(lazy, StateAt(lazy, events, n - 1), events[n - 1]);
    }
  }

  lemma {:induction false} DroppingFailures(ops: map<Id, Op>, log: seq<Entry>)
    requires EntriesOwned(ops, log) && Replay(log).Some?
    ensures Replay(Counting(ops, log)) == Replay(log)
  {
    if log != [] {
      var front, last := log[..|log| - 1], log[|log| - 1];
      DroppingFailures(ops, front);
      assert Owned(ops, last);
      assert log == front + [last];
      CountingMore(ops, front, last);
      if Counts(ops, last) {
        ReplayMore(Counting(ops, front), last);
      } else {
        assert Counting(ops, log) == Counting(ops, front);
      }
    }
  }

  lemma {:induction false} CountingSplits(ops: map<Id, Op>, a: seq<Entry>, b: seq<Entry>)
    ensures Counting(ops, a + b) == Counting(ops, a) + Counting(ops, b)
    decreases |b|
  {
    if b == [] {
      assert a + b == a;
    } else {
      var front, last := b[..|b| - 1], b[|b| - 1];
      CountingSplits(ops, a, front);
      assert a + b == (a + front) + [last] && b == front + [last];
      CountingMore(ops, a + front, last);
      CountingMore(ops, front, last);
    }
  }

  lemma {:induction false} CountingHas(ops: map<Id, Op>, log: seq<Entry>)
    ensures forall e :: e in Counting(ops, log) <==> e in log && Counts(ops, e)
  {
    if log != [] {
      CountingHas(ops, log[..|log| - 1]);
      assert log == log[..|log| - 1] + [log[|log| - 1]];
    }
  }

  /** No operation counts twice. */
  predicate Distinct(entries: seq<Entry>) {
    forall j, k :: 0 <= j < k < |entries| ==> entries[j].id != entries[k].id
  }

  lemma {:induction false} CountingDistinct(ops: map<Id, Op>, log: seq<Entry>)
    requires SecondEntries(log)
    ensures Distinct(Counting(ops, log))
  {
    if log != [] {
      var front, last := log[..|log| - 1], log[|log| - 1];
      CountingDistinct(ops, front);
      CountingHas(ops, front);
      var counting := Counting(ops, front);
      if Counts(ops, last) {
        forall k | 0 <= k < |counting|
          ensures counting[k].id != last.id
        {
          assert counting[k] in counting;
          var j :| 0 <= j < |front| && front[j] == counting[k];
          assert log[j] == front[j] && log[|log| - 1] == last;
        }
      }
    }
  }

  // ------------------------------------------------- where values come from

  /** Before event n, operation id called its factory after a miss, and this is what it supplied. */
  predicate FactorySaid(lazy: bool, events: seq<Event>, n: nat, id: Id, supply: Supply)
    requires n <= |events|
  {
    exists m :: 0 <= m < n && CalledAt(lazy, events, m, id, supply)
  }

  predicate CalledAt(lazy: bool, events: seq<Event>, m: nat, id: Id, supply: Supply)
    requires m < |events|
  {
    events[m] == Factory(id, supply) && id in StateAt(lazy, events, m).ops && StateAt(lazy, events, m).ops[id].pc == Missed
  }

  /** A Get that failed although there is a factory failed because of its factory. */
  ghost predicate FactoryFailed(lazy: bool, events: seq<Event>, n: nat, id: Id)
    requires n <= |events|
  {
    exists supply :: FactorySaid(lazy, events, n, id, supply) && !Usable(supply)
  }

  /** Only a lazy scope makes values, and what is made or logged as made came from the operation's own
      factory call. */
  ghost predicate FromFactories(lazy: bool, events: seq<Event>, n: nat)
    requires n <= |events|
  {
    var s := StateAt(lazy, events, n);
    && (forall id :: id in s.ops && s.ops[id].pc == Missed ==> lazy)
    && (forall id :: id in s.ops && s.ops[id].pc.Made? ==>
          lazy && FactorySaid(lazy, events, n, id, Makes(s.ops[id].pc.value)))
    && (forall k :: 0 <= k < |s.log| && s.log[k].supply.Makes? ==>
          lazy && FactorySaid(lazy, events, n, s.log[k].id, s.log[k].supply))
    && (forall id :: id in s.ops && s.ops[id].pc == Done(FAILED) && lazy ==> FactoryFailed(lazy, events, n, id))
  }

  /** How a step changes what an operation waits for, and what it can log. */
  lemma StepSupplies(lazy: bool, s: State, e: Event, id: Id)
    requires id in Next(lazy, s, e).ops && Shapes(s.ops)
    ensures var pc := Next(lazy, s, e).ops[id].pc;
      && (pc == Missed ==> lazy || (id in s.ops && s.ops[id].pc == Missed))
      && (pc.Made? ==> id in s.ops && (s.ops[id].pc == pc || (s.ops[id].pc == Missed && e == Factory(id, Makes(pc.value)))))
      && (pc == Done(FAILED) && lazy ==>
            id in s.ops && (s.ops[id].pc == pc || (s.ops[id].pc == Missed && e.Factory? && e.id == id && !Usable(e.supply))))
  {
  }

  lemma StepLogs(lazy: bool, s: State, e: Event)
    ensures forall k :: 0 <= k < |Next(lazy, s, e).log| ==>
      var entry := Next(lazy, s, e).log[k];
      || (k < |s.log| && entry == s.log[k])
      || entry.supply == Fails
      || (entry.id in s.ops && s.ops[entry.id].pc == Made(entry.supply.value))
  {
    hide Published;
  }

  lemma FactorySaidStays(lazy: bool, events: seq<Event>, n: nat, id: Id, supply: Supply)
    requires n < |events|
    ensures FactorySaid(lazy, events, n, id, supply) ==> FactorySaid(lazy, events, n + 1, id, supply)
  {
    hide CalledAt;
  }

  lemma {:induction false} AlwaysFromFactories(lazy: bool, events: seq<Event>, n: nat)
    requires n <= |events|
    ensures FromFactories(lazy, events, n)
  {
    hide FactorySaid, FactoryFailed;
    if n > 0 {
      AlwaysFromFactories(lazy, events, n - 1);
      var s, next := StateAt(lazy, events, n - 1), StateAt(lazy, events, n);
      forall id | id in next.ops
        ensures next.ops[id].pc == Missed ==> lazy
        ensures next.ops[id].pc.Made? ==> lazy && FactorySaid(lazy, events, n, id, Makes(next.ops[id].pc.value))
        ensures next.ops[id].pc == Done(FAILED) && lazy ==> FactoryFailed(lazy, events, n, id)
      {
        OpFromFactory(lazy, events, n - 1, id);
      }
      StepLogs(lazy, s, events[n - 1]);
      hide Next;
      forall k | 0 <= k < |next.log| && next.log[k].supply.Makes?
        ensures lazy && FactorySaid(lazy, events, n, next.log[k].id, next.log[k].supply)
      {
        FactorySaidStays(lazy, events, n - 1, next.log[k].id, next.log[k].supply);
      }
    }
  }

  lemma OpFromFactory(lazy: bool, events: seq<Event>, m: nat, id: Id)
    requires m < |events| && FromFactories(lazy, events, m) && id in StateAt(lazy, events, m + 1).ops
    ensures var pc := StateAt(lazy, events, m + 1).ops[id].pc;
      && (pc == Missed ==> lazy)
      && (pc.Made? ==> lazy && FactorySaid(lazy, events, m + 1, id, Makes(pc.value)))
      && (pc == Done(FAILED) && lazy ==> FactoryFailed(lazy, events, m + 1, id))
  {
    AlwaysWellFormed(lazy, events, m);
    var s, e := StateAt(lazy, events, m), events[m];
    var pc := StateAt(lazy, events, m + 1).ops[id].pc;
    StepSupplies(lazy, s, e, id);
    hide Next, FactorySaid, WellFormed;
    if id in s.ops && s.ops[id].pc == pc {
      if pc.Made? {
        FactorySaidStays(lazy, events, m, id, Makes(pc.value));
      } else if pc == Done(FAILED) && lazy {
        var supply :| FactorySaid(lazy, events, m, id, supply) && !Usable(supply);
        FactorySaidStays(lazy, events, m, id, supply);
      }
    } else if e.Factory? && e.id == id && id in s.ops && s.ops[id].pc == Missed {
      FactorySays(lazy, events, m);
    }
  }

  lemma FactorySays(lazy: bool, events: seq<Event>, m: nat)
    requires m < |events| && events[m].Factory?
    requires CalledAt(lazy, events, m, events[m].id, events[m].supply)
    ensures FactorySaid(lazy, events, m + 1, events[m].id, events[m].supply)
  {
    hide CalledAt;
  }

  lemma LinearizationFromFactories(lazy: bool, events: seq<Event>, n: nat, e: Entry)
    requires n <= |events| && e in Linearization(StateAt(lazy, events, n))
    ensures e.supply.Makes? ==> lazy && FactorySaid(lazy, events, n, e.id, e.supply)
    ensures e.reply == FAILED && lazy ==> FactoryFailed(lazy, events, n, e.id)
  {
    AlwaysFromFactories(lazy, events, n);
    var s := StateAt(lazy, events, n);
    CountingHas(s.ops, s.log);
    hide Counting, StateAt, FactorySaid, FactoryFailed;
    var k :| 0 <= k < |s.log| && s.log[k] == e;
  }

  /** Every interleaving of Put, Get and Remove is linearizable: the operations that have returned, each
      once and with the reply it gave, run one after the other on the atomic map, give every one of those
      replies and end in the map as it is. A value that a Get creates there came from its own factory call;
      a scope without a factory creates none; and a Get of a lazy scope fails only if its factory did. */
  lemma ScopeIsLinearizable(lazy: bool, events: seq<Event>, n: nat)
    requires n <= |events|
    ensures var s := StateAt(lazy, events, n);
      && Replay(Linearization(s)) == Some(s.values)
      && Distinct(Linearization(s))
      && (forall id :: id in s.ops && s.ops[id].pc.Done? ==>
            exists e :: e in Linearization(s) && e.id == id && e.call == s.ops[id].call && e.reply == s.ops[id].pc.reply)
      && (forall e :: e in Linearization(s) ==> e.id in s.ops && s.ops[e.id].pc == Done(e.reply))
      && (forall e :: e in Linearization(s) && e.supply.Makes? ==> lazy && FactorySaid(lazy, events, n, e.id, e.supply))
      && (forall e :: e in Linearization(s) && e.reply == FAILED && lazy ==> FactoryFailed(lazy, events, n, e.id))
  {
    AlwaysWellFormed(lazy, events, n);
    var s := StateAt(lazy, events, n);
    hide Replay, Next, StateAt, Counting, FactorySaid, FactoryFailed, Shapes, SecondEntries;
    forall e | e in Linearization(s)
      ensures e.supply.Makes? ==> lazy && FactorySaid(lazy, events, n, e.id, e.supply)
      ensures e.reply == FAILED && lazy ==> FactoryFailed(lazy, events, n, e.id)
    {
      LinearizationFromFactories(lazy, events, n, e);
    }
    DroppingFailures(s.ops, s.log);
    CountingHas(s.ops, s.log);
    CountingDistinct(s.ops, s.log);
    forall id | id in s.ops && s.ops[id].pc.Done?
      ensures exists e :: e in Linearization(s) && e.id == id && e.call == s.ops[id].call && e.reply == s.ops[id].pc.reply
    {
      var e := ReturnedIsThere(s, id);
    }
  }

  /** What has returned is in the linearization, with its reply. */
  lemma ReturnedIsThere(s: State, id: Id) returns (e: Entry)
    requires WellFormed(s) && id in s.ops && s.ops[id].pc.Done?
    ensures e in Linearization(s) && e.id == id && e.call == s.ops[id].call && e.reply == s.ops[id].pc.reply
  {
    CountingHas(s.ops, s.log);
    hide Replay, Counting, SecondEntries, Shapes;
    assert HasEntry(s.log, id, s.ops[id].pc.reply);
    var k :| 0 <= k < |s.log| && s.log[k].id == id && s.log[k].reply == s.ops[id].pc.reply;
    assert Owned(s.ops, s.log[k]);
    e := s.log[k];
  }

  // ------------------------------------------------------------ real-time order

  lemma StepExtends(lazy: bool, s: State, e: Event)
    ensures s.log <= Next(lazy, s, e).log
    ensures forall id :: id in s.ops ==> id in Next(lazy, s, e).ops && Next(lazy, s, e).ops[id].call == s.ops[id].call
    ensures forall id :: id in s.ops && s.ops[id].pc.Done? ==> Next(lazy, s, e).ops[id] == s.ops[id]
  {
    hide Usable, Published;
  }

  lemma {:induction false} RunExtends(lazy: bool, events: seq<Event>, i: nat, n: nat)
    requires i <= n <= |events|
    ensures var s, t := StateAt(lazy, events, i), StateAt(lazy, events, n);
      && s.log <= t.log
      && (forall id :: id in s.ops ==> id in t.ops && t.ops[id].call == s.ops[id].call)
      && (forall id :: id in s.ops && s.ops[id].pc.Done? ==> t.ops[id] == s.ops[id])
  {
    hide Next;
    if i < n {
      RunExtends(lazy, events, i, n - 1);
      StepExtends(lazy, StateAt(lazy, events, n - 1), events[n - 1]);
    }
  }

  /** The linearization respects real time: an operation that had returned before another was invoked
      comes before it. */
  lemma {:induction false} RealTimeOrder(lazy: bool, events: seq<Event>, i: nat, n: nat, a: Id, b: Id, x: nat, y: nat)
    requires i <= n <= |events|
    requires a in StateAt(lazy, events, i).ops && StateAt(lazy, events, i).ops[a].pc.Done?
    requires b !in StateAt(lazy, events, i).ops
    requires var l := Linearization(StateAt(lazy, events, n));
      x < |l| && y < |l| && l[x].id == a && l[y].id == b
    ensures x < y
  {
    AlwaysWellFormed(lazy, events, i);
    AlwaysWellFormed(lazy, events, n);
    RunExtends(lazy, events, i, n);
    var s, t := StateAt(lazy, events, i), StateAt(lazy, events, n);
    hide Replay, Next, StateAt, Counting, Shapes, Counts, EntriesOwned, SecondEntries;
    var rest := t.log[|s.log|..];
    assert t.log == s.log + rest;
    CountingSplits(t.ops, s.log, rest);
    CountingDistinct(t.ops, t.log);
    var first := Counting(t.ops, s.log);
    var m := OldEntriesFirst(s, t, a);
    assert first[m] == Linearization(t)[m];
  }

  /** What had returned is among the entries counted so far, and these are of operations invoked so far. */
  lemma OldEntriesFirst(s: State, t: State, a: Id) returns (m: nat)
    requires WellFormed(s) && a in s.ops && a in t.ops && s.ops[a].pc.Done? && t.ops[a] == s.ops[a]
    ensures forall k :: 0 <= k < |Counting(t.ops, s.log)| ==> Counting(t.ops, s.log)[k].id in s.ops
    ensures m < |Counting(t.ops, s.log)| && Counting(t.ops, s.log)[m].id == a
  {
    CountingHas(t.ops, s.log);
    hide Replay, Counting, SecondEntries, Shapes;
    var first := Counting(t.ops, s.log);
    forall e | e in first
      ensures e.id in s.ops
    {
      var k :| 0 <= k < |s.log| && s.log[k] == e;
      assert Owned(s.ops, s.log[k]);
    }
    assert forall k :: 0 <= k < |first| ==> first[k] in first;
    assert HasEntry(s.log, a, s.ops[a].pc.reply);
    var k :| 0 <= k < |s.log| && s.log[k].id == a && s.log[k].reply == s.ops[a].pc.reply;
    assert s.log[k] in first;
    m :| 0 <= m < |first| && first[m] == s.log[k];
  }

  // -------------------------------------------------------------- one pointer

  /** A Put or Remove on the tenant takes effect. */
  predicate Writes(s: State, e: Event, tenant: Tenant) {
    e.Enter? && e.id in s.ops && s.ops[e.id].pc == Pending && !s.ops[e.id].call.Get? && s.ops[e.id].call.tenant == tenant
  }

  /** A Get on the tenant has succeeded. */
  predicate Succeeded(s: State, id: Id, tenant: Tenant) {
    id in s.ops && s.ops[id].call == Call.Get(tenant) && s.ops[id].pc.Done? && s.ops[id].pc.reply.Got? && s.ops[id].pc.reply.ok
  }

  predicate AgreesWithMap(s: State, id: Id, tenant: Tenant) {
    id in s.ops && tenant in s.values && s.ops[id].pc == Done(Got(s.values[tenant], true))
  }

  lemma StepAgrees(lazy: bool, s: State, e: Event, id: Id, tenant: Tenant)
    requires Shapes(s.ops) && !Writes(s, e, tenant)
    requires Succeeded(s, id, tenant) ==> AgreesWithMap(s, id, tenant)
    requires Succeeded(Next(lazy, s, e), id, tenant)
    ensures AgreesWithMap(Next(lazy, s, e), id, tenant)
  {
  }

  /** Between two writes on a tenant every Get that succeeds returns the pointer that is then in the map,
      and so all of them the same one, however often the factory ran. */
  lemma {:induction false} OnePointer(lazy: bool, events: seq<Event>, i: nat, j: nat, tenant: Tenant, id: Id)
    requires i <= j <= |events|
    requires forall m :: i <= m < j ==> !Writes(StateAt(lazy, events, m), events[m], tenant)
    requires Succeeded(StateAt(lazy, events, j), id, tenant) && !Succeeded(StateAt(lazy, events, i), id, tenant)
    ensures AgreesWithMap(StateAt(lazy, events, j), id, tenant)
  {
    hide Next;
    if i < j {
      var s := StateAt(lazy, events, j - 1);
      AlwaysWellFormed(lazy, events, j - 1);
      hide WellFormed;
      if Succeeded(s, id, tenant) {
        OnePointer(lazy, events, i, j - 1, tenant, id);
      }
      StepAgrees(lazy, s, events[j - 1], id, tenant);
    }
  }

  lemma {:induction false} SamePointer(lazy: bool, events: seq<Event>, i: nat, j: nat, tenant: Tenant, a: Id, b: Id)
    requires i <= j <= |events|
    requires forall m :: i <= m < j ==> !Writes(StateAt(lazy, events, m), events[m], tenant)
    requires Succeeded(StateAt(lazy, events, j), a, tenant) && !Succeeded(StateAt(lazy, events, i), a, tenant)
    requires Succeeded(StateAt(lazy, events, j), b, tenant) && !Succeeded(StateAt(lazy, events, i), b, tenant)
    ensures StateAt(lazy, events, j).ops[a].pc == StateAt(lazy, events, j).ops[b].pc
  {
    OnePointer(lazy, events, i, j, tenant, a);
    OnePointer(lazy, events, i, j, tenant, b);
  }
}
