/** Splitting a conversation into the system text and the messages of the Anthropic wire shape. */
module AnthropicMessages {
  import opened Common

  datatype Message = Message(role: string, content: string)

  const SYSTEM := "system"
  const ASSISTANT := "assistant"
  const USER := "user"
  const GAP := "\n\n"

  /** The contents of the system messages, in order. */
  function SystemTexts(messages: seq<Message>): seq<string> {
    if messages == [] then []
    else
      var last := messages[|messages| - 1];
      SystemTexts(messages[..|messages| - 1]) + (if last.role == SYSTEM then [last.content] else [])
  }

  /** The other messages, in order; every role but the assistant's becomes the user's. */
  function WireMessages(messages: seq<Message>): seq<Message> {
    if messages == [] then []
    else
      var last := messages[|messages| - 1];
      WireMessages(messages[..|messages| - 1])
      + (if last.role == SYSTEM then []
         else [Message(if last.role == ASSISTANT then ASSISTANT else USER, last.content)])
  }

  function Joined(texts: seq<string>): string {
    if texts == [] then ""
    else if |texts| == 1 then texts[0]
    else Joined(texts[..|texts| - 1]) + GAP + texts[|texts| - 1]
  }

  /** Texts without the empty ones at the front. */
  function DropEmpty(texts: seq<string>): seq<string> {
    if texts != [] && texts[0] == "" then DropEmpty(texts[1..]) else texts
  }

  lemma {:induction false} DropEmptyMore(texts: seq<string>, t: string)
    ensures DropEmpty(texts + [t]) == if DropEmpty(texts) == [] && t == "" then [] else DropEmpty(texts) + [t]
    ensures DropEmpty(texts) != [] ==> DropEmpty(texts)[0] != ""
  {
    if texts != [] && texts[0] == "" {
      DropEmptyMore(texts[1..], t);
      assert (texts + [t])[1..] == texts[1..] + [t];
    }
    assert [t][1..] == [];
  }

  lemma {:induction false} JoinedMore(texts: seq<string>, t: string)
    requires texts != [] ==> texts[0] != ""
    ensures Joined(texts) == "" <==> texts == []
    ensures texts != [] ==> Joined(texts + [t]) == Joined(texts) + GAP + t
  {
    assert (texts + [t])[..|texts|] == texts;
  }

  /** One system message more. */
  lemma SystemNext(texts: seq<string>, t: string)
    ensures var before := Joined(DropEmpty(texts));
      Joined(DropEmpty(texts + [t])) == if before == "" then t else before + GAP + t
  {
    DropEmptyMore(texts, t);
    JoinedMore(DropEmpty(texts), t);
    hide DropEmpty;
    assert [] + [t] == [t];
  }

  lemma SplitNext(messages: seq<Message>, i: nat)
    requires i < |messages|
    ensures SystemTexts(messages[..i + 1]) ==
            SystemTexts(messages[..i]) + (if messages[i].role == SYSTEM then [messages[i].content] else [])
    ensures messages[i].role != SYSTEM ==> SystemTexts(messages[..i + 1]) == SystemTexts(messages[..i])
    ensures WireMessages(messages[..i + 1]) ==
            WireMessages(messages[..i])
            + (if messages[i].role == SYSTEM then []
               else [Message(if messages[i].role == ASSISTANT then ASSISTANT else USER, messages[i].content)])
  {
    assert messages[..i + 1][..i] == messages[..i];
    assert SystemTexts(messages[..i]) + [] == SystemTexts(messages[..i]);
  }

  lemma NothingSplit(messages: seq<Message>)
    ensures SystemTexts(messages[..0]) == [] && WireMessages(messages[..0]) == []
    ensures Joined(DropEmpty([])) == ""
  {
  }

  /** The system text joins the system messages with blank lines, except that empty ones before the
      first non-empty one leave no trace. */
  method SplitSystem(messages: seq<Message>) returns (system: string, wire: seq<Message>)
    ensures system == Joined(DropEmpty(SystemTexts(messages)))
    ensures wire == WireMessages(messages)
  {
    system := "";
    wire := [];
    NothingSplit(messages);
    hide SystemTexts, WireMessages, DropEmpty, Joined;
    for i := 0 to |messages|
      invariant system == Joined(DropEmpty(SystemTexts(messages[..i])))
      invariant wire == WireMessages(messages[..i])
    {
      var m := messages[i];
      ghost var texts := SystemTexts(messages[..i]);
      SplitNext(messages, i);
      SystemNext(texts, m.content);
      if m.role == SYSTEM {
        if system == "" {
          system := m.content;
        } else {
          system := system + GAP + m.content;
        }
      } else if m.role == ASSISTANT {
        wire := wire + [Message(ASSISTANT, m.content)];
      } else {
        wire := wire + [Message(USER, m.content)];
      }
    }
    assert messages[..|messages|] == messages;
  }

  predicate IsSystem(m: Message) {
    m.role == "system"
  }

  predicate IsOther(m: Message) {
    m.role != "system"
  }

  /** The k-th text is the content of the system message with k system messages before it. */
  lemma {:induction false} SystemInOrder(messages: seq<Message>, i: nat)
    requires i < |messages|
    ensures |SystemTexts(messages)| == CountBefore(messages, IsSystem, |messages|)
    ensures messages[i].role == "system" ==>
      var k := CountBefore(messages, IsSystem, i);
      k < |SystemTexts(messages)| && SystemTexts(messages)[k] == messages[i].content
    decreases |messages|
  {
    var n := |messages| - 1;
    var front := messages[..n];
    CountNext(messages, IsSystem, n);
    CountPrefix(messages, front, IsSystem, n);
    if n > 0 {
      SystemInOrder(front, if i < n then i else 0);
    }
    if i < n {
      CountPrefix(messages, front, IsSystem, i);
    }
    hide CountBefore;
  }

  /** The k-th wire message is that with k others before it: its content, and the role of the assistant if it
      has that and of the user if not. */
  lemma {:induction false} WireInOrder(messages: seq<Message>, i: nat)
    requires i < |messages|
    ensures |WireMessages(messages)| == CountBefore(messages, IsOther, |messages|)
    ensures messages[i].role != "system" ==>
      var k := CountBefore(messages, IsOther, i);
      && k < |WireMessages(messages)| && WireMessages(messages)[k].content == messages[i].content
      && WireMessages(messages)[k].role == if messages[i].role == "assistant" then "assistant" else "user"
    decreases |messages|
  {
    var n := |messages| - 1;
    var front := messages[..n];
    CountNext(messages, IsOther, n);
    CountPrefix(messages, front, IsOther, n);
    if n > 0 {
      WireInOrder(front, if i < n then i else 0);
    }
    if i < n {
      CountPrefix(messages, front, IsOther, i);
    }
    hide CountBefore;
  }

  /** Joining puts a blank line between texts... */
  lemma {:induction false} JoinedAdds(a: seq<string>, b: seq<string>)
    requires a != [] && b != []
    ensures Joined(a + b) == Joined(a) + "\n\n" + Joined(b)
    decreases |b|
  {
    var front, last := b[..|b| - 1], b[|b| - 1];
    assert a + b == (a + front) + [last] && b == front + [last];
    JoinedThen(a + front, last);
    JoinedThen(front, last);
    hide Joined;
    if front == [] {
      assert a + front == a;
    } else {
      JoinedAdds(a, front);
      Glue(Joined(a), Joined(front), last);
    }
  }

  lemma Glue(x: string, y: string, z: string)
    ensures x + "\n\n" + y + "\n\n" + z == x + "\n\n" + (y + "\n\n" + z)
  {
  }

  lemma JoinedThen(texts: seq<string>, t: string)
    ensures Joined(texts + [t]) == if texts == [] then t else Joined(texts) + "\n\n" + t
    ensures Joined([]) == ""
  {
    assert (texts + [t])[..|texts|] == texts;
  }

  /** ... and the empty ones at the front are what is dropped before. */
  lemma {:induction false} DropsEmptyFront(texts: seq<string>) returns (n: nat)
    ensures n <= |texts| && DropEmpty(texts) == texts[n..]
    ensures (forall i :: 0 <= i < n ==> texts[i] == "") && (n < |texts| ==> texts[n] != "")
  {
    if texts != [] && texts[0] == "" {
      var m := DropsEmptyFront(texts[1..]);
      n := m + 1;
      assert texts[1..][m..] == texts[n..];
      assert forall i :: 0 < i < n ==> texts[i] == texts[1..][i - 1];
    } else {
      n := 0;
    }
  }

  /** Every message goes to exactly one side. */
  lemma {:induction false} SplitKeepsAll(messages: seq<Message>)
    ensures |SystemTexts(messages)| + |WireMessages(messages)| == |messages|
    ensures forall m :: m in WireMessages(messages) ==> m.role == ASSISTANT || m.role == USER
    ensures forall t :: t in SystemTexts(messages) <==> Message(SYSTEM, t) in messages
    ensures DropEmpty(SystemTexts(messages)) == SystemTexts(messages)
            <==> (SystemTexts(messages) != [] ==> SystemTexts(messages)[0] != "")
  {
    DropEmptyShortens(SystemTexts(messages));
    if messages != [] {
      var front, last := messages[..|messages| - 1], messages[|messages| - 1];
      SplitKeepsAll(front);
      assert messages == front + [last];
    }
  }

  lemma {:induction false} DropEmptyShortens(texts: seq<string>)
    ensures |DropEmpty(texts)| <= |texts|
    ensures texts != [] && texts[0] == "" ==> |DropEmpty(texts)| < |texts|
  {
    if texts != [] && texts[0] == "" {
      DropEmptyShortens(texts[1..]);
    }
  }

  lemma {:induction false} JoinedSplits(t: string, rest: seq<string>)
    requires rest != []
    ensures Joined([t] + rest) == t + GAP + Joined(rest)
  {
    var front, last := rest[..|rest| - 1], rest[|rest| - 1];
    assert ([t] + rest)[..|rest|] == [t] + front;
    if front == [] {
      assert [t] + front == [t];
    } else {
      JoinedSplits(t, front);
      assert Joined(rest) == Joined(front) + GAP + last;
    }
  }

  lemma {:induction false} DroppedIsShorter(texts: seq<string>)
    ensures |Joined(DropEmpty(texts))| <= |Joined(texts)|
    ensures |texts| > 1 && texts[0] == "" ==> |Joined(DropEmpty(texts))| < |Joined(texts)|
  {
    if texts != [] && texts[0] == "" {
      DroppedIsShorter(texts[1..]);
      if |texts| > 1 {
        JoinedSplits("", texts[1..]);
        assert texts == [""] + texts[1..];
      }
    }
  }

  /** Exactly: the system text is all the system messages joined if and only if there is at most one, or the
      first is not empty; otherwise the gaps after the empty ones at the front are missing. */
  lemma SystemTextIsWholeExact(messages: seq<Message>)
    ensures var texts := SystemTexts(messages);
      Joined(DropEmpty(texts)) == Joined(texts) <==> |texts| <= 1 || texts[0] != ""
  {
    var texts := SystemTexts(messages);
    DroppedIsShorter(texts);
    if |texts| == 1 && texts[0] == "" {
      assert texts[1..] == [];
    }
  }
}
