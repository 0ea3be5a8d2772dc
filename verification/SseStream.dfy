/** Streaming chat responses: the two SSE pumps, and the bounded channel between a pump and its reader. */
module SseStream {
  import opened Common

  datatype StreamChunk = Text(text: string) | Finish(reason: string) | Failure(message: string)

  /** What JSON decoding makes of one payload. */
  datatype OpenAIEvent = Undecodable | NoChoices | Choice(content: string, finish: Option<string>)

  datatype AnthropicEvent = Malformed | BlockDelta(text: string) | MessageDelta(stopReason: string) | OtherType

  datatype Decoder = OpenAI(openAI: string -> OpenAIEvent) | Anthropic(anthropic: string -> AnthropicEvent)

  /** A response body as the scanner yields it: its lines, and the error that ended it, if any. */
  datatype Body = Body(lines: seq<string>, error: Option<string>)

  const DATA := "data: "
  const DONE := "[DONE]"

  predicate IsData(line: string) {
    |line| >= |DATA| && line[..|DATA|] == DATA
  }

  function Payload(line: string): string
    requires IsData(line)
  {
    line[|DATA|..]
  }

  predicate IsDone(line: string) {
    IsData(line) && Payload(line) == DONE
  }

  function OpenAIChunks(e: OpenAIEvent): seq<StreamChunk> {
    match e
    case Choice(content, finish) =>
      (if content != "" then [Text(content)] else [])
      + (if finish.Some? && finish.value != "" then [Finish(finish.value)] else [])
    case _ => []
  }

  function AnthropicChunks(e: AnthropicEvent): seq<StreamChunk> {
    match e
    case BlockDelta(text) => if text != "" then [Text(text)] else []
    case MessageDelta(reason) => if reason != "" then [Finish(reason)] else []
    case _ => []
  }

  /** The chunks of one line; none for a line that is not data. */
  function LineChunks(d: Decoder, line: string): seq<StreamChunk> {
    if !IsData(line) then []
    else match d
      case OpenAI(decode) => OpenAIChunks(decode(Payload(line)))
      case Anthropic(decode) => AnthropicChunks(decode(Payload(line)))
  }

  /** Only the Anthropic pump reports an error of the scanner; the other one ends as if the body had. */
  function Trailer(d: Decoder, error: Option<string>): seq<StreamChunk> {
    if d.Anthropic? && error.Some? then [Failure(error.value)] else []
  }

  /** What is to be delivered from these lines on. */
  function Stream(d: Decoder, lines: seq<string>, error: Option<string>): seq<StreamChunk> {
    if lines == [] then Trailer(d, error)
    else if IsDone(lines[0]) then []
    else LineChunks(d, lines[0]) + Stream(d, lines[1..], error)
  }

  function AllChunks(d: Decoder, lines: seq<string>): seq<StreamChunk> {
    if lines == [] then [] else AllChunks(d, lines[..|lines| - 1]) + LineChunks(d, lines[|lines| - 1])
  }

  /** The stream is exactly the chunks of the lines before the first [DONE], in order, and after them
      the scanner's error if there is no [DONE] and the backend reports it. */
  lemma StreamIsParsedPrefix(d: Decoder, body: Body, n: nat)
    requires n <= |body.lines|
    requires forall i :: 0 <= i < n ==> !IsDone(body.lines[i])
    requires n < |body.lines| ==> IsDone(body.lines[n])
    ensures Stream(d, body.lines, body.error) ==
            AllChunks(d, body.lines[..n]) + (if n == |body.lines| then Trailer(d, body.error) else [])
  {
    StreamFrom(d, body, n, 0);
    assert body.lines[0..] == body.lines;
  }

  lemma {:induction false} StreamFrom(d: Decoder, body: Body, n: nat, i: nat)
    requires i <= n <= |body.lines|
    requires forall i :: 0 <= i < n ==> !IsDone(body.lines[i])
    requires n < |body.lines| ==> IsDone(body.lines[n])
    ensures AllChunks(d, body.lines[..i]) + Stream(d, body.lines[i..], body.error) ==
            AllChunks(d, body.lines[..n]) + (if n == |body.lines| then Trailer(d, body.error) else [])
    decreases n - i
  {
    hide LineChunks, IsDone, Trailer;
    if i < n {
      StreamFrom(d, body, n, i + 1);
      var rest := body.lines[i..];
      assert rest[1..] == body.lines[i + 1..];
      assert body.lines[..i + 1][..i] == body.lines[..i];
    }
  }

  /** A truncated body is not told apart by the reader of an OpenAI-compatible stream. */
  lemma {:induction false} OpenAIHidesScanErrors(d: Decoder, lines: seq<string>, error: Option<string>)
    requires d.OpenAI?
    ensures Stream(d, lines, error) == Stream(d, lines, None)
  {
    if lines != [] {
      OpenAIHidesScanErrors(d, lines[1..], error);
    }
  }

  /** Exactly: the reader is told of the scanner's error if and only if the backend is the Anthropic one and
      no [DONE] came before. */
  lemma {:induction false} ScanErrorShowsExactly(d: Decoder, lines: seq<string>, error: string)
    ensures Stream(d, lines, Some(error)) != Stream(d, lines, None)
            <==> d.Anthropic? && forall i :: 0 <= i < |lines| ==> !IsDone(lines[i])
  {
    hide LineChunks, IsDone;
    if lines != [] && !IsDone(lines[0]) {
      ScanErrorShowsExactly(d, lines[1..], error);
      var now, told, untold := LineChunks(d, lines[0]), Stream(d, lines[1..], Some(error)), Stream(d, lines[1..], None);
      assert (now + told)[|now|..] == told && (now + untold)[|now|..] == untold;
    }
  }

  /** What one data line delivers, in figures: on an OpenAI-compatible stream first the text, then the reason to
      finish, each only if it is there; on an Anthropic one whichever the event is about. */
  lemma OneDataLine(payload: string, openAI: string -> OpenAIEvent, anthropic: string -> AnthropicEvent)
    requires payload != "[DONE]"
    ensures Stream(OpenAI(openAI), ["data: " + payload], None) ==
      match openAI(payload)
      case Choice(text, Some(reason)) =>
        if text != "" && reason != "" then [Text(text), Finish(reason)]
        else if text != "" then [Text(text)]
        else if reason != "" then [Finish(reason)]
        else []
      case Choice(text, None) => if text != "" then [Text(text)] else []
      case _ => []
    ensures Stream(Anthropic(anthropic), ["data: " + payload], None) ==
      match anthropic(payload)
      case BlockDelta(text) => if text != "" then [Text(text)] else []
      case MessageDelta(reason) => if reason != "" then [Finish(reason)] else []
      case _ => []
  {
    DataLine(payload);
    hide IsData, IsDone, Payload;
    NoTrailer(OpenAI(openAI), "data: " + payload);
    NoTrailer(Anthropic(anthropic), "data: " + payload);
  }

  lemma NoTrailer(d: Decoder, line: string)
    requires !IsDone(line)
    ensures Stream(d, [line], None) == LineChunks(d, line)
  {
    hide IsDone, LineChunks;
    assert [line][1..] == [];
    assert Stream(d, [], None) == [];
    assert LineChunks(d, line) + [] == LineChunks(d, line);
  }

  lemma DataLine(payload: string)
    ensures IsData("data: " + payload) && Payload("data: " + payload) == payload
    ensures IsDone("data: " + payload) <==> payload == "[DONE]"
  {
    assert ("data: " + payload)[..6] == "data: " && ("data: " + payload)[6..] == payload;
  }

  /** The rest of the stream in figures: other lines deliver nothing, [DONE] ends it, and the end of the body
      delivers the scanner's error on an Anthropic stream. */
  lemma OtherLines(d: Decoder, line: string, after: seq<string>, error: Option<string>)
    ensures !("data: " <= line) ==> Stream(d, [line], None) == []
    ensures Stream(d, ["data: [DONE]"] + after, error) == []
    ensures Stream(d, [], error) == if d.Anthropic? && error.Some? then [Failure(error.value)] else []
  {
    assert ["data: [DONE]"] + after != [] && (["data: [DONE]"] + after)[0] == "data: [DONE]";
    DataLine("[DONE]");
    assert "data: [DONE]" == "data: " + "[DONE]";
    if !("data: " <= line) {
      assert !IsData(line);
      NoTrailer(d, line);
    }
  }

  /** And without [DONE] the streams of two stretches of lines follow each other. */
  lemma {:induction false} StreamAdds(d: Decoder, a: seq<string>, b: seq<string>, error: Option<string>)
    requires "data: [DONE]" !in a
    ensures Stream(d, a + b, error) == Stream(d, a, None) + Stream(d, b, error)
  {
    hide LineChunks, IsDone;
    if a == [] {
      assert a + b == b;
    } else {
      assert a == [a[0]] + a[1..] && (a + b)[1..] == a[1..] + b;
      NotDone(a[0]);
      StreamAdds(d, a[1..], b, error);
      assert LineChunks(d, a[0]) + (Stream(d, a[1..], None) + Stream(d, b, error))
          == LineChunks(d, a[0]) + Stream(d, a[1..], None) + Stream(d, b, error);
    }
  }

  lemma NotDone(line: string)
    ensures IsDone(line) <==> line == "data: [DONE]"
  {
    if IsDone(line) {
      assert line == line[..6] + line[6..];
    }
    assert "data: [DONE]"[..6] == "data: " && "data: [DONE]"[6..] == "[DONE]";
  }

  // ------------------------------------------------------------------- the pumps

  lemma StreamNext(d: Decoder, body: Body, i: nat, sent: seq<StreamChunk>)
    requires i < |body.lines|
    requires sent + Stream(d, body.lines[i..], body.error) == Stream(d, body.lines, body.error)
    ensures IsDone(body.lines[i]) ==> sent == Stream(d, body.lines, body.error)
    ensures !IsDone(body.lines[i]) ==>
              sent + LineChunks(d, body.lines[i]) + Stream(d, body.lines[i + 1..], body.error)
              == Stream(d, body.lines, body.error)
  {
    hide LineChunks, IsDone, Trailer;
    var rest := body.lines[i..];
    assert rest[0] == body.lines[i] && rest[1..] == body.lines[i + 1..];
    if !IsDone(rest[0]) {
      var now, later := LineChunks(d, rest[0]), Stream(d, rest[1..], body.error);
      assert sent + (now + later) == sent + now + later;
    }
  }

  lemma StreamEnds(d: Decoder, body: Body)
    ensures Stream(d, body.lines[|body.lines|..], body.error) == Trailer(d, body.error)
    ensures [] + Stream(d, body.lines[0..], body.error) == Stream(d, body.lines, body.error)
  {
    assert body.lines[0..] == body.lines;
  }

  /** Every chunk the OpenAI-compatible pump sends, in order. */
  method PumpOpenAI(body: Body, decode: string -> OpenAIEvent) returns (sent: seq<StreamChunk>)
    ensures sent == Stream(OpenAI(decode), body.lines, body.error)
  {
    ghost var d := OpenAI(decode);
    sent := [];
    StreamEnds(d, body);
    hide Stream;
    for i := 0 to |body.lines|
      invariant sent + Stream(d, body.lines[i..], body.error) == Stream(d, body.lines, body.error)
    {
      var line := body.lines[i];
      StreamNext(d, body, i, sent);
      ghost var before := sent;
      if !IsData(line) {
        continue;
      }
      var payload := line[|DATA|..];
      if payload == DONE {
        return;
      }
      var event := decode(payload);
      if event.Undecodable? || event.NoChoices? {
        continue;
      }
      if event.content != "" {
        sent := sent + [Text(event.content)];
      }
      if event.finish.Some? && event.finish.value != "" {
        sent := sent + [Finish(event.finish.value)];
      }
      assert sent == before + LineChunks(d, line);
    }
  }

  /** Every chunk the Anthropic pump sends, in order. */
  method PumpAnthropic(body: Body, decode: string -> AnthropicEvent) returns (sent: seq<StreamChunk>)
    ensures sent == Stream(Anthropic(decode), body.lines, body.error)
  {
    ghost var d := Anthropic(decode);
    sent := [];
    StreamEnds(d, body);
    hide Stream;
    for i := 0 to |body.lines|
      invariant sent + Stream(d, body.lines[i..], body.error) == Stream(d, body.lines, body.error)
    {
      var line := body.lines[i];
      StreamNext(d, body, i, sent);
      ghost var before := sent;
      if !IsData(line) {
        continue;
      }
      var payload := line[|DATA|..];
      if payload == DONE {
        return;
      }
      match decode(payload) {
        case Malformed =>
        case BlockDelta(text) =>
          if text != "" {
            sent := sent + [Text(text)];
          }
        case MessageDelta(reason) =>
          if reason != "" {
            sent := sent + [Finish(reason)];
          }
        case OtherType =>
      }
      assert sent == before + LineChunks(d, line);
    }
    if body.error.Some? {
      sent := sent + [Failure(body.error.value)];
    }
  }

  // ------------------------------------------------------------------ the channel

  const CAPACITY := 16

  datatype Phase = Reading(rest: seq<string>) | Ending | Closed

  /** The pump with the chunks it has still to send, the channel, and the reader. */
  datatype State = State(
    phase: Phase,
    pending: seq<StreamChunk>,
    buffer: seq<StreamChunk>,
    received: seq<StreamChunk>,
    ended: bool)

  datatype Turn = Producer | Consumer

  function Start(body: Body): State {
    State(Reading(body.lines), [], [], [], false)
  }

  predicate CanProduce(s: State) {
    if s.pending != [] then |s.buffer| < CAPACITY else !s.phase.Closed?
  }

  /** A reader that ranges over the channel. */
  predicate CanConsume(s: State) {
    !s.ended && (s.buffer != [] || s.phase.Closed?)
  }

  function Produce(d: Decoder, error: Option<string>, s: State): State
    requires CanProduce(s)
  {
    if s.pending != [] then s.(pending := s.pending[1..], buffer := s.buffer + [s.pending[0]])
    else match s.phase
      case Reading(rest) =>
        if rest == [] then s.(phase := Ending, pending := Trailer(d, error))
        else if IsDone(rest[0]) then s.(phase := Ending)
        else s.(phase := Reading(rest[1..]), pending := LineChunks(d, rest[0]))
      case Ending => s.(phase := Closed)
  }

  function Consume(s: State): State
    requires CanConsume(s)
  {
    if s.buffer != [] then s.(buffer := s.buffer[1..], received := s.received + [s.buffer[0]])
    else s.(ended := true)
  }

  predicate Enabled(s: State, turn: Turn) {
    match turn
    case Producer => CanProduce(s)
    case Consumer => CanConsume(s)
  }

  /** A turn given to a side that is blocked changes nothing. */
  function Next(d: Decoder, error: Option<string>, s: State, turn: Turn): State {
    if !Enabled(s, turn) then s
    else match turn
      case Producer => Produce(d, error, s)
      case Consumer => Consume(s)
  }

  function StateAt(d: Decoder, body: Body, schedule: seq<Turn>, n: nat): State
    requires n <= |schedule|
  {
    if n == 0 then Start(body) else Next(d, body.error, StateAt(d, body, schedule, n - 1), schedule[n - 1])
  }

  /** What the pump has not looked at yet. */
  function Unread(d: Decoder, error: Option<string>, phase: Phase): seq<StreamChunk> {
    match phase
    case Reading(rest) => Stream(d, rest, error)
    case _ => []
  }

  predicate Good(d: Decoder, body: Body, s: State) {
    && s.received + s.buffer + s.pending + Unread(d, body.error, s.phase) == Stream(d, body.lines, body.error)
    && |s.buffer| <= CAPACITY
    && (s.phase.Closed? ==> s.pending == [])
    && (s.ended ==> s.phase.Closed? && s.buffer == [])
  }

  lemma StepKeepsGood(d: Decoder, body: Body, s: State, turn: Turn)
    requires Good(d, body, s)
    ensures Good(d, body, Next(d, body.error, s, turn))
  {
    hide Trailer, LineChunks, Stream, Unread;
    if Enabled(s, turn) {
      if turn.Consumer? {
        if s.buffer != [] {
          assert s.received + s.buffer == s.received + [s.buffer[0]] + s.buffer[1..];
        }
      } else if s.pending != [] {
        assert s.buffer + s.pending == s.buffer + [s.pending[0]] + s.pending[1..];
        var before, rest := s.received + s.buffer + s.pending, Unread(d, body.error, s.phase);
        assert s.received + (s.buffer + [s.pending[0]]) + s.pending[1..] == before;
      } else {
        PendingRead(d, body.error, s);
        var read := Produce(d, body.error, s);
        assert s.received + s.buffer + read.pending + Unread(d, body.error, read.phase)
            == s.received + s.buffer + [] + (read.pending + Unread(d, body.error, read.phase));
      }
    }
  }

  /** Looking at a line moves its chunks from the unread to the pending ones. */
  lemma PendingRead(d: Decoder, error: Option<string>, s: State)
    requires CanProduce(s) && s.pending == []
    ensures var read := Produce(d, error, s);
      read.pending + Unread(d, error, read.phase) == Unread(d, error, s.phase)
  {
    hide Trailer, LineChunks;
  }

  /** Nothing is lost, repeated or reordered between the pump and its reader, and the channel never
      holds more than its capacity. */
  lemma {:induction false} AlwaysGood(d: Decoder, body: Body, schedule: seq<Turn>, n: nat)
    requires n <= |schedule|
    ensures Good(d, body, StateAt(d, body, schedule, n))
    ensures |StateAt(d, body, schedule, n).buffer| <= 16
    ensures StateAt(d, body, schedule, n).received <= Stream(d, body.lines, body.error)
    ensures StateAt(d, body, schedule, n).ended ==>
              StateAt(d, body, schedule, n).received == Stream(d, body.lines, body.error)
  {
    hide Next;
    if n > 0 {
      AlwaysGood(d, body, schedule, n - 1);
      StepKeepsGood(d, body, StateAt(d, body, schedule, n - 1), schedule[n - 1]);
    }
  }

  /** Until the reader has seen the end, one of the two sides can move. */
  lemma NoDeadlock(d: Decoder, body: Body, schedule: seq<Turn>, n: nat)
    requires n <= |schedule| && !StateAt(d, body, schedule, n).ended
    ensures var s := StateAt(d, body, schedule, n); CanProduce(s) || CanConsume(s)
  {
    AlwaysGood(d, body, schedule, n);
  }

  /** Lines left, chunks left to read, to send and to receive, and the closing steps. */
  function Measure(d: Decoder, error: Option<string>, s: State): nat {
    (match s.phase case Reading(rest) => |rest| + 2 case Ending => 1 case Closed => 0)
    + 2 * |Unread(d, error, s.phase)| + 2 * |s.pending| + |s.buffer| + (if s.ended then 0 else 1)
  }

  lemma StepDecreases(d: Decoder, error: Option<string>, s: State, turn: Turn)
    requires Enabled(s, turn)
    ensures Measure(d, error, Next(d, error, s, turn)) < Measure(d, error, s)
  {
    hide Trailer, LineChunks;
  }

  /** How many of the first n turns were not blocked. */
  function Moves(d: Decoder, body: Body, schedule: seq<Turn>, n: nat): nat
    requires n <= |schedule|
  {
    if n == 0 then 0
    else Moves(d, body, schedule, n - 1)
         + (if Enabled(StateAt(d, body, schedule, n - 1), schedule[n - 1]) then 1 else 0)
  }

  /** Every schedule makes a bounded number of moves: as many as two per chunk and line, and a few more. */
  lemma {:induction false} MovesAreBounded(d: Decoder, body: Body, schedule: seq<Turn>, n: nat)
    requires n <= |schedule|
    ensures Moves(d, body, schedule, n) + Measure(d, body.error, StateAt(d, body, schedule, n))
         <= |body.lines| + 2 * |Stream(d, body.lines, body.error)| + 3
  {
    hide Next, Enabled;
    if n > 0 {
      MovesAreBounded(d, body, schedule, n - 1);
      var s := StateAt(d, body, schedule, n - 1);
      if Enabled(s, schedule[n - 1]) {
        StepDecreases(d, body.error, s, schedule[n - 1]);
      } else {
        BlockedChangesNothing(d, body.error, s, schedule[n - 1]);
      }
    }
  }

  lemma BlockedChangesNothing(d: Decoder, error: Option<string>, s: State, turn: Turn)
    requires !Enabled(s, turn)
    ensures Next(d, error, s, turn) == s
  {
  }

  /** So a schedule that has used up its moves has delivered the whole stream and the close. */
  lemma {:induction false} FinishedSchedulesDeliver(d: Decoder, body: Body, schedule: seq<Turn>)
    requires var s := StateAt(d, body, schedule, |schedule|); !CanProduce(s) && !CanConsume(s)
    ensures StateAt(d, body, schedule, |schedule|).ended
    ensures StateAt(d, body, schedule, |schedule|).received == Stream(d, body.lines, body.error)
  {
    AlwaysGood(d, body, schedule, |schedule|);
    hide StateAt, Stream;
  }

  // ------------------------------------------------------------ abandoned readers

  /** The pump on its own for m turns: the reader has gone away. */
  function Alone(d: Decoder, error: Option<string>, s: State, m: nat): State
    decreases m
  {
    if m == 0 then s else Alone(d, error, Next(d, error, s, Producer), m - 1)
  }

  lemma {:induction false} AloneKeepsGood(d: Decoder, body: Body, s: State, m: nat)
    requires Good(d, body, s)
    ensures Good(d, body, Alone(d, body.error, s, m)) && Alone(d, body.error, s, m).received == s.received
    decreases m
  {
    hide Next;
    if m > 0 {
      StepKeepsGood(d, body, s, Producer);
      ProducerDoesNotReceive(d, body.error, s);
      AloneKeepsGood(d, body, Next(d, body.error, s, Producer), m - 1);
    }
  }

  lemma ProducerDoesNotReceive(d: Decoder, error: Option<string>, s: State)
    ensures Next(d, error, s, Producer).received == s.received
    ensures Next(d, error, s, Producer).ended == s.ended
  {
  }

  lemma {:induction false} AloneCloses(d: Decoder, body: Body, s: State) returns (m: nat)
    requires Good(d, body, s) && |Stream(d, body.lines, body.error)| <= |s.received| + CAPACITY
    ensures Alone(d, body.error, s, m).phase.Closed?
    decreases Measure(d, body.error, s)
  {
    hide Next, Stream, Measure;
    if s.phase.Closed? {
      m := 0;
    } else {
      assert CanProduce(s);
      StepKeepsGood(d, body, s, Producer);
      StepDecreases(d, body.error, s, Producer);
      ProducerDoesNotReceive(d, body.error, s);
      var more := AloneCloses(d, body, Next(d, body.error, s, Producer));
      m := more + 1;
    }
  }

  /** When the reader stops reading, the pump's goroutine ends, and with it the response body is closed,
      exactly if what is left of the stream fits in the channel. */
  lemma AbandonedPumpEndsExactly(d: Decoder, body: Body, schedule: seq<Turn>, n: nat)
    requires n <= |schedule|
    ensures var s := StateAt(d, body, schedule, n);
      (exists m :: Alone(d, body.error, s, m).phase.Closed?)
      <==> |Stream(d, body.lines, body.error)| <= |s.received| + 16
  {
    AlwaysGood(d, body, schedule, n);
    var s := StateAt(d, body, schedule, n);
    if m: nat :| Alone(d, body.error, s, m).phase.Closed? {
      AloneKeepsGood(d, body, s, m);
    }
    if |Stream(d, body.lines, body.error)| <= |s.received| + CAPACITY {
      var m := AloneCloses(d, body, s);
    }
  }
}
