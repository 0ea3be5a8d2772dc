/** Composing runs of the idempotency protocol. */
module IdempotencyRuns {
  import opened IdempotencyProtocol

  function Run(prefix: string, s: State, events: seq<Event>): State
    decreases |events|
  {
    if events == [] then s else Run(prefix, Next(prefix, s, events[0]), events[1..])
  }

  function Reached(prefix: string, events: seq<Event>): State {
    StateAt(prefix, events, |events|)
  }

  lemma {:induction false} StateAtPrefix(prefix: string, a: seq<Event>, b: seq<Event>, n: nat)
    requires n <= |a| && n <= |b| && a[..n] == b[..n]
    ensures StateAt(prefix, a, n) == StateAt(prefix, b, n)
  {
    if n > 0 {
      assert a[..n - 1] == a[..n][..n - 1] == b[..n][..n - 1] == b[..n - 1];
      assert a[n - 1] == a[..n][n - 1] == b[..n][n - 1] == b[n - 1];
      StateAtPrefix(prefix, a, b, n - 1);
    }
  }

  /** More events continue from the state reached. */
  lemma {:induction false} Continues(prefix: string, events: seq<Event>, more: seq<Event>)
    ensures Reached(prefix, events + more) == Run(prefix, Reached(prefix, events), more)
    decreases |more|
  {
    hide Next;
    if more == [] {
      assert events + more == events;
    } else {
      var longer := events + [more[0]];
      StateAtPrefix(prefix, longer, events, |events|);
      Continues(prefix, longer, more[1..]);
      assert longer + more[1..] == events + more;
    }
  }

  lemma RunTwo(prefix: string, s: State, e0: Event, e1: Event)
    ensures Run(prefix, s, [e1]) == Next(prefix, s, e1)
    ensures Run(prefix, s, [e0, e1]) == Next(prefix, Next(prefix, s, e0), e1)
  {
    hide Next;
    var s1 := Next(prefix, s, e0);
    assert [e0, e1][1..] == [e1] && [e1][1..] == [];
    assert Run(prefix, s1, [e1]) == Run(prefix, Next(prefix, s1, e1), []);
  }

  lemma RunThree(prefix: string, s: State, e0: Event, e1: Event, e2: Event)
    ensures Run(prefix, s, [e0, e1, e2]) == Next(prefix, Next(prefix, Next(prefix, s, e0), e1), e2)
  {
    RunTwo(prefix, Next(prefix, s, e0), e1, e2);
    assert [e0, e1, e2][1..] == [e1, e2];
    hide Next;
  }

  lemma RunFour(prefix: string, s: State, e0: Event, e1: Event, e2: Event, e3: Event)
    ensures Run(prefix, s, [e0, e1, e2, e3]) ==
            Next(prefix, Next(prefix, Next(prefix, Next(prefix, s, e0), e1), e2), e3)
  {
    RunThree(prefix, Next(prefix, s, e0), e1, e2, e3);
    assert [e0, e1, e2, e3][1..] == [e1, e2, e3];
    hide Next;
  }

  lemma {:induction false} RunTogether(prefix: string, s: State, a: seq<Event>, b: seq<Event>)
    ensures Run(prefix, s, a + b) == Run(prefix, Run(prefix, s, a), b)
    decreases |a|
  {
    hide Next;
    if a == [] {
      assert a + b == b;
    } else {
      assert (a + b)[1..] == a[1..] + b;
      RunTogether(prefix, Next(prefix, s, a[0]), a[1..], b);
    }
  }
}
