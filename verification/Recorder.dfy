/** The response recorder of the idempotency middleware and the replay of what it recorded. */
module Recorder {
  import opened Common

  newtype Byte = b: int | 0 <= b < 256

  type Bytes = seq<Byte>

  /** net/http refuses any other code. */
  type StatusCode = c: int | 100 <= c <= 999 witness 200

  type Header = map<string, seq<string>>

  datatype CachedResponse = CachedResponse(status: int, headers: map<string, string>, body: Bytes)

  const REPLAY_MARKER := "Idempotency-Replay"

  predicate Successful(status: int) {
    200 <= status < 300
  }

  // ------------------------------------------------- the underlying writer

  /** What has gone out to the client. */
  datatype Wire = Wire(committed: bool, status: int, sent: Header, body: Bytes)

  const UNSENT := Wire(false, 0, map[], [])

  /** Interim responses (section 15.2 of RFC 9110) do not commit the final one. */
  predicate Interim(code: int) {
    100 <= code < 200 && code != 101
  }

  predicate BodyAllowed(status: int) {
    !(100 <= status < 200) && status != 204 && status != 304
  }

  function Commit(header: Header, wire: Wire, code: int): Wire {
    if wire.committed || Interim(code) then wire else Wire(true, code, header, wire.body)
  }

  function Send(header: Header, wire: Wire, b: Bytes): Wire {
    var w := Commit(header, wire, 200);
    if BodyAllowed(w.status) then w.(body := w.body + b) else w
  }

  /** The http.ResponseWriter under the recorder: the first final status commits the header. */
  class ResponseWriter {
    var header: Header
    var wire: Wire

    constructor (initial: Header)
      ensures header == initial && wire == UNSENT
    {
      header := initial;
      wire := UNSENT;
    }

    method SetHeader(name: string, values: seq<string>)
      modifies this
      ensures header == old(header)[name := values] && wire == old(wire)
    {
      header := header[name := values];
    }

    method WriteHeader(code: int)
      modifies this
      ensures header == old(header) && wire == Commit(header, old(wire), code)
    {
      if !wire.committed && !Interim(code) {
        wire := Wire(true, code, header, wire.body);
      }
    }

    method Write(b: Bytes)
      modifies this
      ensures header == old(header) && wire == Send(header, old(wire), b)
    {
      if !wire.committed {
        WriteHeader(200);
      }
      if BodyAllowed(wire.status) {
        wire := wire.(body := wire.body + b);
      }
    }
  }

  // ------------------------------------------------------------ the recorder

  /** The first value of every header that has one. */
  function FirstValues(header: Header): map<string, string> {
    FirstValuesOf(header, header.Keys)
  }

  function FirstValuesOf(header: Header, names: set<string>): map<string, string> {
    map k | k in names && k in header && |header[k]| > 0 :: header[k][0]
  }

  lemma FirstValuesNone(h: Header, base: map<string, string>)
    ensures base + FirstValuesOf(h, h.Keys - h.Keys) == base
  {
  }

  /** Taking one more name off the list of those left to copy. */
  lemma FirstValuesNext(h: Header, left: set<string>, k: string, base: map<string, string>)
    requires k in left && left <= h.Keys
    ensures base + FirstValuesOf(h, h.Keys - (left - {k})) ==
            var copied := base + FirstValuesOf(h, h.Keys - left);
            if |h[k]| > 0 then copied[k := h[k][0]] else copied
  {
  }

  /** Recorder and writer together, as the handler drives them. */
  datatype Exchange = Exchange(header: Header, wire: Wire, status: int, headers: map<string, string>, buf: Bytes)

  datatype Call =
    | SetHeader(name: string, values: seq<string>)
    | WriteHeader(code: StatusCode)
    | Write(data: Bytes)

  function Apply(x: Exchange, call: Call): Exchange {
    match call
    case SetHeader(name, values) => x.(header := x.header[name := values])
    case WriteHeader(code) =>
      x.(status := code, headers := x.headers + FirstValues(x.header), wire := Commit(x.header, x.wire, code))
    case Write(data) =>
      x.(status := if x.status == 0 then 200 else x.status, buf := x.buf + data, wire := Send(x.header, x.wire, data))
  }

  class Recorder {
    const out: ResponseWriter
    var buf: Bytes
    var status: int
    var headers: map<string, string>

    constructor (w: ResponseWriter)
      ensures out == w && buf == [] && status == 0 && headers == map[]
    {
      out := w;
      buf := [];
      status := 0;
      headers := map[];
    }

    ghost function State(): Exchange
      reads this, out
    {
      Exchange(out.header, out.wire, status, headers, buf)
    }

    method WriteHeader(code: StatusCode)
      modifies this, out
      ensures State() == Apply(old(State()), Call.WriteHeader(code))
    {
      hide FirstValuesOf;
      status := code;
      var h := out.header;
      var names := h.Keys;
      FirstValuesNone(h, headers);
      while names != {}
        invariant names <= h.Keys
        invariant status == code && buf == old(buf)
        invariant headers == old(headers) + FirstValuesOf(h, h.Keys - names)
        modifies `headers
      {
        var k :| k in names;
        FirstValuesNext(h, names, k, old(headers));
        if |h[k]| > 0 {
          headers := headers[k := h[k][0]];
        }
        names := names - {k};
      }
      assert h.Keys - {} == h.Keys;
      out.WriteHeader(code);
    }

    method Write(b: Bytes)
      modifies this, out
      ensures State() == Apply(old(State()), Call.Write(b))
    {
      if status == 0 {
        status := 200;
      }
      buf := buf + b;
      out.Write(b);
    }
  }

  /** Replaying a stored response: headers, the marker, the status, the body. */
  function ReplayHeader(initial: Header, c: CachedResponse): Header {
    (initial + SinglesOf(c.headers, c.headers.Keys))[REPLAY_MARKER := ["true"]]
  }

  function SinglesOf(headers: map<string, string>, names: set<string>): Header {
    map k | k in names && k in headers :: [headers[k]]
  }

  /** Taking one more name off the list of those left to set. */
  lemma SinglesNext(headers: map<string, string>, left: set<string>, k: string, base: Header)
    requires k in left && left <= headers.Keys
    ensures base + SinglesOf(headers, headers.Keys - (left - {k})) ==
            (base + SinglesOf(headers, headers.Keys - left))[k := [headers[k]]]
  {
  }

  lemma SinglesNone(headers: map<string, string>, base: Header)
    ensures base + SinglesOf(headers, headers.Keys - headers.Keys) == base
  {
  }

  function ReplayWire(initial: Header, c: CachedResponse): Wire {
    var header := ReplayHeader(initial, c);
    Send(header, Commit(header, UNSENT, c.status), c.body)
  }

  method Replay(w: ResponseWriter, c: CachedResponse)
    requires w.wire == UNSENT
    modifies w
    ensures w.header == ReplayHeader(old(w.header), c) && w.wire == ReplayWire(old(w.header), c)
  {
    hide SinglesOf;
    var names := c.headers.Keys;
    SinglesNone(c.headers, w.header);
    while names != {}
      invariant names <= c.headers.Keys && w.wire == UNSENT
      invariant w.header == old(w.header) + SinglesOf(c.headers, c.headers.Keys - names)
    {
      var k :| k in names;
      SinglesNext(c.headers, names, k, old(w.header));
      w.SetHeader(k, [c.headers[k]]);
      names := names - {k};
    }
    assert c.headers.Keys - {} == c.headers.Keys;
    w.SetHeader(REPLAY_MARKER, ["true"]);
    w.WriteHeader(c.status);
    w.Write(c.body);
  }

  // -------------------------------------------------------- whole handlers

  /** The exchange after the first n calls of a handler. */
  function After(initial: Header, calls: seq<Call>, n: nat): Exchange
    requires n <= |calls|
  {
    if n == 0 then Exchange(initial, UNSENT, 0, map[], [])
    else Apply(After(initial, calls, n - 1), calls[n - 1])
  }

  function Recorded(initial: Header, calls: seq<Call>): CachedResponse {
    var x := After(initial, calls, |calls|);
    CachedResponse(x.status, x.headers, x.buf)
  }

  /** What the client got: a handler that committed nothing is answered with 200 when it returns. */
  function Delivered(initial: Header, calls: seq<Call>): Wire {
    var x := After(initial, calls, |calls|);
    Commit(x.header, x.wire, 200)
  }

  /** Everything written by the first n calls, in order. */
  function Written(calls: seq<Call>, n: nat): Bytes
    requires n <= |calls|
  {
    if n == 0 then []
    else if calls[n - 1].Write? then Written(calls, n - 1) + calls[n - 1].data
    else Written(calls, n - 1)
  }

  predicate Wrote(calls: seq<Call>, n: nat)
    requires n <= |calls|
  {
    exists i :: 0 <= i < n && calls[i].Write?
  }

  /** Call w is the last WriteHeader among the first n. */
  predicate LastWriteHeader(calls: seq<Call>, w: nat, n: nat)
    requires n <= |calls|
  {
    w < n && calls[w].WriteHeader? && forall i :: w < i < n ==> !calls[i].WriteHeader?
  }

  predicate NoWriteHeader(calls: seq<Call>, n: nat)
    requires n <= |calls|
  {
    forall i :: 0 <= i < n ==> !calls[i].WriteHeader?
  }

  /** For every handler the recorded body is the concatenation of its writes. */
  lemma {:induction false} BodyIsConcatenation(initial: Header, calls: seq<Call>, n: nat)
    requires n <= |calls|
    ensures After(initial, calls, n).buf == Written(calls, n)
  {
    if n > 0 {
      BodyIsConcatenation(initial, calls, n - 1);
    }
  }

  /** The recorded status is the last one the handler set; 200 if it only wrote; 0 if it did neither. */
  lemma {:induction false} StatusIsLast(initial: Header, calls: seq<Call>, n: nat)
    requires n <= |calls|
    ensures forall w: nat :: LastWriteHeader(calls, w, n) ==> After(initial, calls, n).status == calls[w].code
    ensures NoWriteHeader(calls, n) ==>
      After(initial, calls, n).status == (if Wrote(calls, n) then 200 else 0) && After(initial, calls, n).headers == map[]
    ensures After(initial, calls, n).status == 0 ==> NoWriteHeader(calls, n) && !Wrote(calls, n)
  {
    if n > 0 {
      StatusIsLast(initial, calls, n - 1);
      forall w: nat | LastWriteHeader(calls, w, n)
        ensures After(initial, calls, n).status == calls[w].code
      {
        assert w < n - 1 ==> LastWriteHeader(calls, w, n - 1);
      }
    }
  }

  /** The handler calls WriteHeader exactly once, as call w, and with a final status. */
  predicate WritesHeaderOnce(calls: seq<Call>, w: nat) {
    && w < |calls| && calls[w].WriteHeader? && !Interim(calls[w].code)
    && forall i :: 0 <= i < |calls| && i != w ==> !calls[i].WriteHeader?
  }

  /** Before the first write or status nothing has gone out and nothing is recorded. */
  lemma {:induction false} NothingSentBefore(initial: Header, calls: seq<Call>, n: nat)
    requires n <= |calls| && NoWriteHeader(calls, n) && !Wrote(calls, n)
    ensures After(initial, calls, n) == Exchange(After(initial, calls, n).header, UNSENT, 0, map[], [])
  {
    if n > 0 {
      NothingSentBefore(initial, calls, n - 1);
    }
  }

  /** Once the header is written first, status and headers are settled, on the wire and in the record,
      and the body on the wire is what may be sent of the record's. */
  lemma {:induction false} SettledAfter(initial: Header, calls: seq<Call>, w: nat, n: nat)
    requires WritesHeaderOnce(calls, w) && !Wrote(calls, w) && w < n <= |calls|
    ensures var x, h := After(initial, calls, n), After(initial, calls, w).header;
      && x.status == calls[w].code && x.headers == FirstValues(h)
      && x.wire == Wire(true, calls[w].code, h, if BodyAllowed(calls[w].code) then x.buf else [])
  {
    if n == w + 1 {
      NothingSentBefore(initial, calls, w);
      assert map[] + FirstValues(After(initial, calls, w).header) == FirstValues(After(initial, calls, w).header);
    } else {
      SettledAfter(initial, calls, w, n - 1);
    }
  }

  /** A handler that sets its status once, before writing, is replayed faithfully: same status, same
      body, and the first value of every header sent, over whatever the replaying writer had. */
  lemma ReplayIsFaithful(initial: Header, calls: seq<Call>, w: nat, later: Header)
    requires WritesHeaderOnce(calls, w) && !Wrote(calls, w)
    ensures var original, again := Delivered(initial, calls), ReplayWire(later, Recorded(initial, calls));
      && original.status == calls[w].code
      && original.sent == After(initial, calls, w).header
      && again.status == original.status && again.body == original.body
      && again.sent == ReplayHeader(later, Recorded(initial, calls))
      && (forall k :: k in FirstValues(original.sent) && k != REPLAY_MARKER ==>
            k in again.sent && again.sent[k] == [original.sent[k][0]])
      && (forall k :: k !in FirstValues(original.sent) && k != REPLAY_MARKER ==>
            (k in again.sent <==> k in later) && (k in later ==> again.sent[k] == later[k]))
    ensures BodyAllowed(calls[w].code) ==> Delivered(initial, calls).body == Written(calls, |calls|)
  {
    SettledAfter(initial, calls, w, |calls|);
    BodyIsConcatenation(initial, calls, |calls|);
    assert [] + After(initial, calls, |calls|).buf == After(initial, calls, |calls|).buf;
  }

  // ------------------------------------ what goes out and what is recorded

  /** A call that commits the response: a write, or a final status. */
  predicate Commits(call: Call) {
    call.Write? || (call.WriteHeader? && !Interim(call.code))
  }

  /** The first of the first n calls that commits the response. */
  function FirstCommit(calls: seq<Call>, n: nat): (first: Option<nat>)
    requires n <= |calls|
    ensures first.Some? ==> first.value < n && Commits(calls[first.value])
    ensures forall i :: 0 <= i < (if first.Some? then first.value else n) ==> !Commits(calls[i])
  {
    if n == 0 then None
    else
      var before := FirstCommit(calls, n - 1);
      if before.None? && Commits(calls[n - 1]) then Some(n - 1) else before
  }

  /** The last WriteHeader among the first n calls. */
  function LastHeader(calls: seq<Call>, n: nat): (last: Option<nat>)
    requires n <= |calls|
    ensures last.Some? ==> LastWriteHeader(calls, last.value, n)
    ensures last.None? ==> NoWriteHeader(calls, n)
  {
    if n == 0 then None
    else if calls[n - 1].WriteHeader? then Some(n - 1)
    else LastHeader(calls, n - 1)
  }

  /** The status sent: that of the first call that commits; 200 for a write, and if there is none. */
  function StatusSent(calls: seq<Call>): int {
    var first := FirstCommit(calls, |calls|);
    if first.Some? && calls[first.value].WriteHeader? then calls[first.value].code else 200
  }

  /** The status recorded: the last one set; 200 if the handler only wrote, 0 if it did neither. */
  function StatusKept(calls: seq<Call>): int {
    var last := LastHeader(calls, |calls|);
    if last.Some? then calls[last.value].code
    else if Wrote(calls, |calls|) then 200
    else 0
  }

  /** The header map as the first n calls leave it. */
  function HeaderAfter(initial: Header, calls: seq<Call>, n: nat): Header
    requires n <= |calls|
  {
    if n == 0 then initial
    else if calls[n - 1].SetHeader? then HeaderAfter(initial, calls, n - 1)[calls[n - 1].name := calls[n - 1].values]
    else HeaderAfter(initial, calls, n - 1)
  }

  /** The header map sent: as it is at the first call that commits, or at the end. */
  function HeaderSent(initial: Header, calls: seq<Call>): Header {
    var first := FirstCommit(calls, |calls|);
    HeaderAfter(initial, calls, if first.Some? then first.value else |calls|)
  }

  function FirstValue(h: Header, name: string): Option<string> {
    if name in h && |h[name]| > 0 then Some(h[name][0]) else None
  }

  /** The value a header had at the last WriteHeader at which it had one. */
  function ValueKept(initial: Header, calls: seq<Call>, n: nat, name: string): Option<string>
    requires n <= |calls|
  {
    if n == 0 then None
    else if calls[n - 1].WriteHeader? && FirstValue(HeaderAfter(initial, calls, n - 1), name).Some? then
      FirstValue(HeaderAfter(initial, calls, n - 1), name)
    else ValueKept(initial, calls, n - 1, name)
  }

  /** What one call does to the wire. */
  lemma WireStep(x: Exchange, call: Call)
    ensures Apply(x, call).header == if call.SetHeader? then x.header[call.name := call.values] else x.header
    ensures x.wire == UNSENT ==>
      Apply(x, call).wire ==
        if !Commits(call) then UNSENT
        else Wire(true, if call.WriteHeader? then call.code else 200, x.header, if call.Write? then call.data else [])
    ensures x.wire.committed ==>
      Apply(x, call).wire ==
        if call.Write? && BodyAllowed(x.wire.status) then x.wire.(body := x.wire.body + call.data) else x.wire
    ensures BodyAllowed(200) && (call.Write? ==> Commits(call)) && (call.SetHeader? ==> !Commits(call))
  {
    hide FirstValues;
    assert call.Write? ==> [] + call.data == call.data;
  }

  lemma {:induction false} HeaderIs(initial: Header, calls: seq<Call>, n: nat)
    requires n <= |calls|
    ensures After(initial, calls, n).header == HeaderAfter(initial, calls, n)
  {
    hide FirstValues, Commit, Send;
    if n > 0 {
      HeaderIs(initial, calls, n - 1);
    }
  }

  lemma NoCommitNothingWritten(calls: seq<Call>, n: nat)
    requires n <= |calls| && FirstCommit(calls, n).None?
    ensures !Wrote(calls, n) && Written(calls, n) == []
  {
    hide FirstCommit;
    NothingWritten(calls, n);
  }

  /** For every handler: the wire after n calls is settled by the first call that commits. */
  lemma {:induction false} WireIsFirst(initial: Header, calls: seq<Call>, n: nat)
    requires n <= |calls|
    ensures var x, first := After(initial, calls, n), FirstCommit(calls, n);
      && (first.None? ==> x.wire == UNSENT)
      && (first.Some? ==>
            var status := if calls[first.value].WriteHeader? then calls[first.value].code else 200;
            x.wire == Wire(true, status, HeaderAfter(initial, calls, first.value),
                           if BodyAllowed(status) then Written(calls, n) else []))
  {
    if n > 0 {
      WireIsFirst(initial, calls, n - 1);
      HeaderIs(initial, calls, n - 1);
      WireStep(After(initial, calls, n - 1), calls[n - 1]);
      hide Apply, BodyAllowed, Commits, Wrote, HeaderAfter;
      if FirstCommit(calls, n - 1).None? {
        NoCommitNothingWritten(calls, n - 1);
      }
    }
  }

  lemma {:induction false} NothingWritten(calls: seq<Call>, n: nat)
    requires n <= |calls| && !Wrote(calls, n)
    ensures Written(calls, n) == []
  {
    if n > 0 {
      assert !Wrote(calls, n - 1) && !calls[n - 1].Write?;
      NothingWritten(calls, n - 1);
    }
  }

  /** For every handler, with interim, repeated and late statuses: what the client gets is settled by
      the first call that commits, and what is recorded by the last WriteHeader. */
  lemma SentIsFirstKeptIsLast(initial: Header, calls: seq<Call>)
    ensures Delivered(initial, calls) == Wire(true, StatusSent(calls), HeaderSent(initial, calls),
                                              if BodyAllowed(StatusSent(calls)) then Written(calls, |calls|) else [])
    ensures Recorded(initial, calls).status == StatusKept(calls)
    ensures Recorded(initial, calls).body == Written(calls, |calls|)
  {
    SentIsFirst(initial, calls);
    StatusIsLast(initial, calls, |calls|);
    BodyIsConcatenation(initial, calls, |calls|);
    hide After, HeaderAfter, Delivered, StatusSent, HeaderSent, Written;
  }

  lemma SentIsFirst(initial: Header, calls: seq<Call>)
    ensures Delivered(initial, calls) == Wire(true, StatusSent(calls), HeaderSent(initial, calls),
                                              if BodyAllowed(StatusSent(calls)) then Written(calls, |calls|) else [])
  {
    WireIsFirst(initial, calls, |calls|);
    HeaderIs(initial, calls, |calls|);
    if FirstCommit(calls, |calls|).None? {
      NoCommitNothingWritten(calls, |calls|);
    }
    hide After, HeaderAfter, Written, Wrote;
  }

  /** The headers recorded are those that had a value at some WriteHeader, with the last such value. */
  lemma {:induction false} HeadersKept(initial: Header, calls: seq<Call>, n: nat, name: string)
    requires n <= |calls|
    ensures After(initial, calls, n).header == HeaderAfter(initial, calls, n)
    ensures var kept, headers := ValueKept(initial, calls, n, name), After(initial, calls, n).headers;
      && (kept.Some? <==> name in headers)
      && (kept.Some? ==> headers[name] == kept.value)
  {
    if n > 0 {
      HeadersKept(initial, calls, n - 1, name);
    }
  }

  /** What a client gets from a replay of a stored response. */
  lemma ReplayOfSuccess(later: Header, c: CachedResponse)
    requires Successful(c.status)
    ensures ReplayWire(later, c) == Wire(true, c.status, ReplayHeader(later, c), if BodyAllowed(c.status) then c.body else [])
  {
    hide ReplayHeader;
    assert [] + c.body == c.body;
  }

  /** Exactly: for every handler whose response is stored, the replay has the status that was sent if
      and only if the first call that commits and the last WriteHeader say the same. So a 500 followed by
      a second WriteHeader(200) is stored, and replayed as a success. */
  lemma ReplayedStatusExact(initial: Header, calls: seq<Call>, later: Header)
    requires Successful(Recorded(initial, calls).status)
    ensures ReplayWire(later, Recorded(initial, calls)).status == Delivered(initial, calls).status
            <==> StatusSent(calls) == StatusKept(calls)
  {
    SentIsFirstKeptIsLast(initial, calls);
    ReplayOfSuccess(later, Recorded(initial, calls));
    hide Recorded, Delivered;
  }

  /** Exactly: a success that was delivered is not stored if and only if the handler neither wrote nor set a
      status, or the last status it set is none of success; and what was no success is stored if and only if
      the last status it set is. */
  lemma StoredExactly(initial: Header, calls: seq<Call>)
    ensures Successful(Delivered(initial, calls).status) && !Successful(Recorded(initial, calls).status)
            <==> Successful(StatusSent(calls)) && match LastHeader(calls, |calls|)
                                                  case None => !Wrote(calls, |calls|)
                                                  case Some(w) => !Successful(calls[w].code)
    ensures !Successful(Delivered(initial, calls).status) && Successful(Recorded(initial, calls).status)
            <==> !Successful(StatusSent(calls)) && match LastHeader(calls, |calls|)
                                                   case None => false
                                                   case Some(w) => Successful(calls[w].code)
  {
    SentIsFirstKeptIsLast(initial, calls);
    hide Delivered, Recorded, After;
    if LastHeader(calls, |calls|).None? {
      WroteMeans200(calls);
    }
  }

  /** Both ways to go wrong: an error replayed as a success, and a success that is never stored. */
  lemma StatusMismatches(initial: Header, later: Header, data: Bytes)
    ensures var calls := [Call.WriteHeader(500), Call.WriteHeader(200)];
      && Delivered(initial, calls).status == 500
      && Recorded(initial, calls).status == 200 == ReplayWire(later, Recorded(initial, calls)).status
    ensures var calls := [Call.WriteHeader(103), Write(data)];
      Delivered(initial, calls).status == 200 && !Successful(Recorded(initial, calls).status)
  {
    var overwritten := [Call.WriteHeader(500), Call.WriteHeader(200)];
    assert FirstCommit(overwritten, 1) == Some(0) && LastHeader(overwritten, 2) == Some(1);
    SentIsFirstKeptIsLast(initial, overwritten);
    ReplayedStatusExact(initial, overwritten, later);
    ReplayOfSuccess(later, Recorded(initial, overwritten));
    var interim := [Call.WriteHeader(103), Write(data)];
    assert FirstCommit(interim, 1) == None && LastHeader(interim, 1) == Some(0);
    SentIsFirstKeptIsLast(initial, interim);
    hide Delivered, Recorded, After, ReplayWire, HeaderAfter;
  }

  /** Without a WriteHeader the client gets 200. */
  lemma WroteMeans200(calls: seq<Call>)
    requires NoWriteHeader(calls, |calls|)
    ensures StatusSent(calls) == 200
  {
  }

  /** Exactly: a replay carries the body that was sent if and only if nothing was written, or both
      statuses allow a body, or neither does. */
  lemma ReplayedBodyExact(initial: Header, calls: seq<Call>, later: Header)
    requires Successful(Recorded(initial, calls).status)
    ensures ReplayWire(later, Recorded(initial, calls)).body == Delivered(initial, calls).body
            <==> Written(calls, |calls|) == [] || BodyAllowed(StatusSent(calls)) == BodyAllowed(StatusKept(calls))
  {
    SentIsFirstKeptIsLast(initial, calls);
    ReplayOfSuccess(later, Recorded(initial, calls));
    hide Recorded, Delivered, StatusSent, StatusKept, Written, BodyAllowed, Successful, ReplayWire;
  }

  /** All values of a header; none if it is absent. */
  function Values(h: Header, name: string): seq<string> {
    if name in h then h[name] else []
  }

  /** Exactly, header by header, for every handler and whatever header map the replaying writer starts with:
      a header recorded is replayed as it was sent if and only if it was sent with that one value; one that
      is not recorded if and only if the replaying writer has it just so. The marker is always "true". */
  lemma ReplayedHeaderExact(initial: Header, calls: seq<Call>, later: Header, name: string)
    requires Successful(Recorded(initial, calls).status)
    ensures var sent, kept := Values(HeaderSent(initial, calls), name), ValueKept(initial, calls, |calls|, name);
      Values(Delivered(initial, calls).sent, name) == Values(ReplayWire(later, Recorded(initial, calls)).sent, name)
      <==> if name == REPLAY_MARKER then sent == ["true"]
           else if kept.Some? then sent == [kept.value]
           else sent == Values(later, name)
  {
    SentIsFirstKeptIsLast(initial, calls);
    HeadersKept(initial, calls, |calls|, name);
    ReplayOfSuccess(later, Recorded(initial, calls));
    hide After, ValueKept, HeaderSent;
  }

  /** So even a handler that sets its status once and before writing is replayed with a header as it was sent
      if and only if that was sent with one value, or with none and the replaying writer has none either. */
  lemma OneValueIsFaithful(initial: Header, calls: seq<Call>, w: nat, later: Header, name: string)
    requires WritesHeaderOnce(calls, w) && !Wrote(calls, w) && name != REPLAY_MARKER
    ensures var sent := Values(Delivered(initial, calls).sent, name);
      sent == Values(ReplayWire(later, Recorded(initial, calls)).sent, name)
      <==> |sent| == 1 || (sent == [] && Values(later, name) == [])
  {
    ReplayIsFaithful(initial, calls, w, later);
    hide Delivered, Recorded, ReplayWire, ReplayHeader, After, WritesHeaderOnce;
  }

  /** A header with two values loses the second, even if the handler does everything else right. */
  lemma SecondValueIsLost(name: string, first: string, second: string)
    requires name != REPLAY_MARKER
    ensures var calls := [SetHeader(name, [first, second]), Call.WriteHeader(200)];
      && Values(Delivered(map[], calls).sent, name) == [first, second]
      && Values(ReplayWire(map[], Recorded(map[], calls)).sent, name) == [first]
  {
    var calls := [SetHeader(name, [first, second]), Call.WriteHeader(200)];
    var header: Header := map[name := [first, second]];
    assert After(map[], calls, 1).header == header;
    assert After(map[], calls, 2).headers == map[] + FirstValues(header);
    hide After;
  }

  /** A header set between a write and a late WriteHeader is replayed although it was never sent. */
  lemma LateHeaderIsInvented(name: string, value: string, data: Bytes)
    requires name != REPLAY_MARKER
    ensures var calls := [Write(data), SetHeader(name, [value]), Call.WriteHeader(200)];
      && name !in Delivered(map[], calls).sent
      && name in ReplayWire(map[], Recorded(map[], calls)).sent
  {
    var calls := [Write(data), SetHeader(name, [value]), Call.WriteHeader(200)];
    var header: Header := map[name := [value]];
    assert After(map[], calls, 1) == Exchange(map[], Wire(true, 200, map[], [] + data), 200, map[], [] + data);
    assert After(map[], calls, 2).header == header;
    assert After(map[], calls, 3).headers == map[] + FirstValues(header);
    hide After;
  }

  /** A handler that writes without ever setting a status is replayed without any of its headers. */
  lemma ImplicitStatusLosesHeaders(initial: Header, calls: seq<Call>, later: Header)
    requires NoWriteHeader(calls, |calls|) && Wrote(calls, |calls|)
    ensures Recorded(initial, calls) == CachedResponse(200, map[], Written(calls, |calls|))
    ensures Delivered(initial, calls).status == 200
    ensures ReplayWire(later, Recorded(initial, calls)).sent == later[REPLAY_MARKER := ["true"]]
  {
    hide After, Apply, ReplayWire;
    StatusIsLast(initial, calls, |calls|);
    BodyIsConcatenation(initial, calls, |calls|);
    WireIsFirst(initial, calls, |calls|);
    NoHeadersReplayed(later, Written(calls, |calls|));
  }

  lemma NoHeadersReplayed(later: Header, body: Bytes)
    ensures ReplayWire(later, CachedResponse(200, map[], body)).sent == later[REPLAY_MARKER := ["true"]]
  {
    assert later + map[] == later;
  }

  // --------------------------------------------------------------- in figures

  /** The commonest handler in figures, for every status: one WriteHeader and one write. An interim status is
      followed by 200 on the wire but recorded as it is; 101, 204 and 304 have no body on the wire. */
  lemma OneHeaderOneWrite(name: string, value: string, code: StatusCode, data: Bytes)
    ensures var calls := [SetHeader(name, [value]), Call.WriteHeader(code), Write(data)];
      && Delivered(map[], calls).status == (if 100 <= code <= 199 && code != 101 then 200 else code)
      && Delivered(map[], calls).body == (if code == 101 || code == 204 || code == 304 then [] else data)
      && Delivered(map[], calls).sent == map[name := [value]]
      && Recorded(map[], calls) == CachedResponse(code, map[name := value], data)
  {
    var calls := [SetHeader(name, [value]), Call.WriteHeader(code), Write(data)];
    var header: Header := map[name := [value]];
    assert After(map[], calls, 1) == Exchange(header, UNSENT, 0, map[], []);
    assert map[] + FirstValues(header) == map[name := value];
    assert After(map[], calls, 2) == Exchange(header, Commit(header, UNSENT, code), code, map[name := value], []);
    assert [] + data == data;
    assert After(map[], calls, 3).header == header && After(map[], calls, 3).buf == data;
    hide After;
  }

  /** A handler that neither writes nor sets a status answers 200 with an empty body, and nothing is recorded. */
  lemma SilentHandler(initial: Header, calls: seq<Call>)
    requires forall i :: 0 <= i < |calls| ==> calls[i].SetHeader?
    ensures Delivered(initial, calls).status == 200 && Delivered(initial, calls).body == []
    ensures Recorded(initial, calls) == CachedResponse(0, map[], [])
  {
    NothingSentBefore(initial, calls, |calls|);
  }

  /** What is written is the writes one after the other, and nothing else. */
  lemma {:induction false} WrittenAdds(a: seq<Call>, b: seq<Call>)
    ensures Written(a + b, |a + b|) == Written(a, |a|) + Written(b, |b|)
    decreases |b|
  {
    hide Written;
    if b == [] {
      assert a + b == a;
      NoneWritten(b);
    } else {
      var front, last := b[..|b| - 1], b[|b| - 1];
      WrittenAdds(a, front);
      assert a + b == (a + front) + [last] && b == front + [last];
      WrittenThen(a + front, last);
      WrittenThen(front, last);
    }
  }

  lemma NoneWritten(calls: seq<Call>)
    ensures Written(calls, 0) == []
  {
  }

  /** One call more. */
  lemma WrittenThen(calls: seq<Call>, call: Call)
    ensures Written(calls + [call], |calls + [call]|) ==
            Written(calls, |calls|) + (if call.Write? then call.data else [])
  {
    WrittenPrefix(calls, calls + [call], |calls|);
  }

  lemma {:induction false} WrittenPrefix(a: seq<Call>, b: seq<Call>, n: nat)
    requires n <= |a| && n <= |b| && a[..n] == b[..n]
    ensures Written(a, n) == Written(b, n)
  {
    if n > 0 {
      assert a[..n - 1] == a[..n][..n - 1] == b[..n][..n - 1] == b[..n - 1];
      assert a[n - 1] == a[..n][n - 1] == b[..n][n - 1] == b[n - 1];
      WrittenPrefix(a, b, n - 1);
    }
  }

  /** A header has the values it was last set to, or those it had at first. */
  lemma {:induction false} HeaderIsLastSet(initial: Header, calls: seq<Call>, n: nat, name: string, last: int)
    requires -1 <= last < n <= |calls| && (last >= 0 ==> calls[last].SetHeader? && calls[last].name == name)
    requires forall j :: last < j < n && calls[j].SetHeader? ==> calls[j].name != name
    ensures Values(After(initial, calls, n).header, name) ==
            if last >= 0 then calls[last].values else Values(initial, name)
  {
    if last < n - 1 && n > 1 {
      HeaderIsLastSet(initial, calls, n - 1, name, last);
    }
    hide FirstValues, Commit, Send;
  }

  /** A replay in figures: the status and body of the record, its headers, the marker, and else what the
      replaying writer had. */
  lemma ReplayInFigures(later: Header, c: CachedResponse, name: string)
    requires 200 <= c.status <= 299
    ensures var again := ReplayWire(later, c);
      && again.status == c.status && again.body == (if c.status == 204 then [] else c.body)
      && Values(again.sent, name) == if name == "Idempotency-Replay" then ["true"]
                                     else if name in c.headers then [c.headers[name]]
                                     else Values(later, name)
  {
    ReplayOfSuccess(later, c);
  }

  /** Every WriteHeader adds to the record, and a later value of a header takes the place of an earlier one:
      so a header that was taken back before it was sent is replayed all the same. */
  lemma RecordAccumulates(name: string, value: string, other: string)
    ensures var calls := [SetHeader(name, [value]), Call.WriteHeader(100), SetHeader(name, []), Call.WriteHeader(200)];
      Delivered(map[], calls).sent == map[name := []] && Recorded(map[], calls).headers == map[name := value]
    ensures var calls := [SetHeader(name, [value]), Call.WriteHeader(100), SetHeader(name, [other]), Call.WriteHeader(200)];
      Recorded(map[], calls).headers == map[name := other]
  {
    TwoStatuses(name, value, []);
    TwoStatuses(name, value, [other]);
    assert map[name := value] + FirstValues(map[name := []]) == map[name := value];
    assert map[name := value] + FirstValues(map[name := [other]]) == map[name := other];
    hide After, FirstValues;
  }

  lemma TwoStatuses(name: string, value: string, values: seq<string>)
    ensures var calls := [SetHeader(name, [value]), Call.WriteHeader(100), SetHeader(name, values), Call.WriteHeader(200)];
      && Delivered(map[], calls).sent == map[name := values]
      && Recorded(map[], calls).headers == map[name := value] + FirstValues(map[name := values])
  {
    var calls := [SetHeader(name, [value]), Call.WriteHeader(100), SetHeader(name, values), Call.WriteHeader(200)];
    var first: Header := map[name := [value]];
    assert map[] + FirstValues(first) == map[name := value];
    hide FirstValues;
    assert After(map[], calls, 1) == Exchange(first, UNSENT, 0, map[], []);
    assert After(map[], calls, 2) == Exchange(first, UNSENT, 100, map[name := value], []);
    assert first[name := values] == map[name := values];
    assert After(map[], calls, 3) == Exchange(map[name := values], UNSENT, 100, map[name := value], []);
  }
}
