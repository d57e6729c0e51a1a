/**
 Buffering the request body before authentication and replaying it to the inner
 app, as a refinement of the original ASGI stream under a byte cap.
 */
module Transport {
  import opened Options

  type Byte = bv8
  type Bytes = seq<Byte>

  /** An ASGI message; `Request` has its missing keys defaulted to an empty body and no more to come. */
  datatype Message = Request(body: Bytes, more: bool) | Disconnect | Other

  const MAX_MCP_BODY_BYTES: nat := 5 * 1024 * 1024

  /** `Blocked`: the stream so far ends inside the body, so the read is still waiting. */
  datatype ReadOutcome = Body(bytes: Bytes) | TooLarge | Blocked

  function Prepend(chunk: Bytes, outcome: ReadOutcome): ReadOutcome {
    if outcome.Body? then Body(chunk + outcome.bytes) else outcome
  }

  /** What a read with `budget` bytes left makes of the messages, and the messages it leaves. */
  function ReadSpec(messages: seq<Message>, budget: Option<nat>): (ReadOutcome, seq<Message>)
    decreases |messages|
  {
    if messages == [] then (Blocked, [])
    else if !messages[0].Request? then (Body([]), messages[1..])
    else
      var chunk := messages[0].body;
      if budget.Some? && |chunk| > budget.value then (TooLarge, messages[1..])
      else if !messages[0].more then (Body(chunk), messages[1..])
      else
        var (outcome, rest) := ReadSpec(messages[1..], if budget.Some? then Some(budget.value - |chunk|) else None);
        (Prepend(chunk, outcome), rest)
  }

  // ----------------------------------------------- what the read means

  function Concat(chunks: seq<Bytes>): Bytes {
    if chunks == [] then [] else chunks[0] + Concat(chunks[1..])
  }

  /** A body sent in these chunks, the last of them final. */
  function Frames(chunks: seq<Bytes>): seq<Message>
    requires chunks != []
    decreases |chunks|
  {
    if |chunks| == 1 then [Request(chunks[0], false)] else [Request(chunks[0], true)] + Frames(chunks[1..])
  }

  /** Body frames of which none is final. */
  function Partial(chunks: seq<Bytes>): seq<Message> {
    seq(|chunks|, (i: nat) requires i < |chunks| => Request(chunks[i], true))
  }

  /** Within the cap the read returns the concatenated chunks and leaves exactly the unread rest. */
  lemma {:induction false} ReadsWholeBody(chunks: seq<Bytes>, rest: seq<Message>, budget: Option<nat>)
    requires chunks != [] && (budget.Some? ==> |Concat(chunks)| <= budget.value)
    ensures ReadSpec(Frames(chunks) + rest, budget) == (Body(Concat(chunks)), rest)
    decreases |chunks|
  {
    var messages := Frames(chunks) + rest;
    if |chunks| == 1 {
      assert messages[1..] == rest;
      assert chunks[1..] == [] && Concat(chunks) == chunks[0];
    } else {
      assert messages[1..] == Frames(chunks[1..]) + rest;
      ReadsWholeBody(chunks[1..], rest, if budget.Some? then Some(budget.value - |chunks[0]|) else None);
    }
  }

  /** The read aborts at the first chunk that takes the running total over the cap, having consumed just that far. */
  lemma {:induction false} AbortsAtFirstExcess(chunks: seq<Bytes>, last: Message, rest: seq<Message>, cap: nat)
    requires |Concat(chunks)| <= cap && last.Request? && |Concat(chunks)| + |last.body| > cap
    ensures ReadSpec(Partial(chunks) + [last] + rest, Some(cap)) == (TooLarge, rest)
    decreases |chunks|
  {
    var messages := Partial(chunks) + [last] + rest;
    if chunks == [] {
      assert messages[0] == last && messages[1..] == rest;
    } else {
      assert messages[0] == Request(chunks[0], true);
      assert messages[1..] == Partial(chunks[1..]) + [last] + rest;
      AbortsAtFirstExcess(chunks[1..], last, rest, cap - |chunks[0]|);
    }
  }

  /** A disconnect, or any other message, inside a body within the cap ends the read with what has come. */
  lemma {:induction false} CutShort(chunks: seq<Bytes>, last: Message, rest: seq<Message>, budget: Option<nat>)
    requires !last.Request? && (budget.Some? ==> |Concat(chunks)| <= budget.value)
    ensures ReadSpec(Partial(chunks) + [last] + rest, budget) == (Body(Concat(chunks)), rest)
    decreases |chunks|
  {
    var messages := Partial(chunks) + [last] + rest;
    if chunks == [] {
      assert messages[0] == last && messages[1..] == rest;
    } else {
      assert messages[0] == Request(chunks[0], true);
      assert messages[1..] == Partial(chunks[1..]) + [last] + rest;
      CutShort(chunks[1..], last, rest, if budget.Some? then Some(budget.value - |chunks[0]|) else None);
    }
  }

  /** Without a further message the read goes on waiting. */
  lemma {:induction false} WaitsForMore(chunks: seq<Bytes>, budget: Option<nat>)
    requires budget.Some? ==> |Concat(chunks)| <= budget.value
    ensures ReadSpec(Partial(chunks), budget) == (Blocked, [])
    decreases |chunks|
  {
    if chunks != [] {
      assert Partial(chunks)[0] == Request(chunks[0], true) && Partial(chunks)[1..] == Partial(chunks[1..]);
      WaitsForMore(chunks[1..], if budget.Some? then Some(budget.value - |chunks[0]|) else None);
    }
  }

  /** Whatever the stream, a body that is returned is within the cap. */
  lemma {:induction false} NeverOverCap(messages: seq<Message>, cap: nat)
    ensures var (outcome, rest) := ReadSpec(messages, Some(cap)); outcome.Body? ==> |outcome.bytes| <= cap
    decreases |messages|
  {
    if messages != [] && messages[0].Request? && |messages[0].body| <= cap && messages[0].more {
      NeverOverCap(messages[1..], cap - |messages[0].body|);
    }
  }

  lemma {:induction false} OversizeIsTooLarge(chunks: seq<Bytes>, rest: seq<Message>, cap: nat)
    requires chunks != [] && |Concat(chunks)| > cap
    ensures ReadSpec(Frames(chunks) + rest, Some(cap)).0 == TooLarge
    decreases |chunks|
  {
    var messages := Frames(chunks) + rest;
    if |chunks| == 1 {
      assert chunks[1..] == [] && Concat(chunks) == chunks[0];
    } else if |chunks[0]| <= cap {
      assert messages[1..] == Frames(chunks[1..]) + rest;
      OversizeIsTooLarge(chunks[1..], rest, cap - |chunks[0]|);
    }
  }

  /** A whole body is refused as too large if and only if it has more than 5 MiB, however it is cut into chunks. */
  lemma TooLargeIff(chunks: seq<Bytes>, rest: seq<Message>)
    requires chunks != []
    ensures var (outcome, left) := ReadSpec(Frames(chunks) + rest, Some(MAX_MCP_BODY_BYTES));
            && (outcome == TooLarge <==> |Concat(chunks)| > 5 * 1024 * 1024)
            && (outcome != TooLarge ==> outcome == Body(Concat(chunks)) && left == rest)
  {
    if |Concat(chunks)| > MAX_MCP_BODY_BYTES {
      OversizeIsTooLarge(chunks, rest, MAX_MCP_BODY_BYTES);
    } else {
      ReadsWholeBody(chunks, rest, Some(MAX_MCP_BODY_BYTES));
    }
  }

  // ------------------------------------------------------- the streams

  /** The server's side of one request: messages yet to be received. */
  class AsgiReceive {
    var pending: seq<Message>

    constructor (messages: seq<Message>)
      ensures pending == messages
    {
      pending := messages;
    }

    /** The next message, or nothing while the client has sent no more. */
    method Receive() returns (message: Option<Message>)
      modifies this
      ensures old(pending) == [] ==> message == None && pending == []
      ensures old(pending) != [] ==> message == Some(old(pending)[0]) && pending == old(pending)[1..]
    {
      if pending == [] {
        return None;
      }
      message := Some(pending[0]);
      pending := pending[1..];
    }
  }

  function Left(maxBytes: Option<nat>, total: nat): Option<nat>
    requires maxBytes.Some? ==> total <= maxBytes.value
  {
    if maxBytes.Some? then Some(maxBytes.value - total) else None
  }

  /** Having read `chunks` of `start`, with `pending` still to come. */
  ghost predicate Reading(start: seq<Message>, maxBytes: Option<nat>, chunks: Bytes, pending: seq<Message>) {
    && (maxBytes.Some? ==> |chunks| <= maxBytes.value)
    && (var (outcome, rest) := ReadSpec(pending, Left(maxBytes, |chunks|));
        (Prepend(chunks, outcome), rest) == ReadSpec(start, maxBytes))
  }

  lemma ReadingStarts(start: seq<Message>, maxBytes: Option<nat>)
    ensures Reading(start, maxBytes, [], start)
  {
    var outcome := ReadSpec(start, maxBytes).0;
    assert outcome.Body? ==> [] + outcome.bytes == outcome.bytes;
  }

  /** One more message: what it ends the read with, or the read goes on. */
  lemma ReadingGoesOn(start: seq<Message>, maxBytes: Option<nat>, chunks: Bytes, pending: seq<Message>)
    requires Reading(start, maxBytes, chunks, pending)
    ensures pending == [] ==> ReadSpec(start, maxBytes) == (Blocked, [])
    ensures pending != [] && !pending[0].Request? ==> ReadSpec(start, maxBytes) == (Body(chunks), pending[1..])
    ensures pending != [] && pending[0].Request? ==>
      var more := chunks + pending[0].body;
      if maxBytes.Some? && |more| > maxBytes.value then ReadSpec(start, maxBytes) == (TooLarge, pending[1..])
      else if !pending[0].more then ReadSpec(start, maxBytes) == (Body(more), pending[1..])
      else Reading(start, maxBytes, more, pending[1..])
  {
    assert chunks + [] == chunks;
    if pending != [] && pending[0].Request? && pending[0].more {
      var chunk := pending[0].body;
      if maxBytes.Some? ==> |chunks + chunk| <= maxBytes.value {
        var outcome := ReadSpec(pending[1..], Left(maxBytes, |chunks + chunk|)).0;
        assert outcome.Body? ==> chunks + (chunk + outcome.bytes) == chunks + chunk + outcome.bytes;
      }
    }
  }

  method ReadFullBody(receive: AsgiReceive, maxBytes: Option<nat>) returns (outcome: ReadOutcome)
    modifies receive
    ensures (outcome, receive.pending) == ReadSpec(old(receive.pending), maxBytes)
  {
    var chunks: Bytes := [];
    var total := 0;
    ghost var start := receive.pending;
    ReadingStarts(start, maxBytes);
    while true
      invariant total == if maxBytes.Some? then |chunks| else 0
      invariant Reading(start, maxBytes, chunks, receive.pending)
      decreases |receive.pending|
    {
      ReadingGoesOn(start, maxBytes, chunks, receive.pending);
      var message := receive.Receive();
      if message.None? {
        return Blocked;
      }
      if !message.value.Request? {
        return Body(chunks);
      }
      var chunk := message.value.body;
      if maxBytes.Some? {
        total := total + |chunk|;
        if total > maxBytes.value {
          return TooLarge;
        }
      }
      chunks := chunks + chunk;
      if !message.value.more {
        return Body(chunks);
      }
    }
  }

  /** The receive handed to the inner app: the buffered frame once, then the real stream. */
  class ReplayReceive {
    const body: Bytes
    const original: AsgiReceive
    var done: bool

    /** What the inner app has still to see. */
    ghost function Remaining(): seq<Message>
      reads this, original
    {
      (if done then [] else [Request(body, false)]) + original.pending
    }

    constructor (body: Bytes, original: AsgiReceive)
      ensures this.body == body && this.original == original && Remaining() == [Request(body, false)] + original.pending
    {
      this.body, this.original, this.done := body, original, false;
    }

    method Receive() returns (message: Option<Message>)
      modifies this, original
      ensures old(Remaining()) == [] ==> message == None && Remaining() == []
      ensures old(Remaining()) != [] ==> message == Some(old(Remaining())[0]) && Remaining() == old(Remaining())[1..]
    {
      if !done {
        done := true;
        message := Some(Request(body, false));
        assert Remaining() == old(Remaining())[1..];
      } else {
        assert old(Remaining()) == original.pending;
        message := original.Receive();
        assert Remaining() == original.pending;
      }
    }

    /** The inner app's view over any number of receives is the buffered frame and then the original stream. */
    method Drain(count: nat) returns (seen: seq<Message>)
      requires count <= |Remaining()|
      modifies this, original
      ensures seen == old(Remaining())[..count] && Remaining() == old(Remaining())[count..]
    {
      seen := [];
      for i := 0 to count
        invariant seen == old(Remaining())[..i] && Remaining() == old(Remaining())[i..]
      {
        var message := Receive();
        seen := seen + [message.value];
      }
    }
  }

  // ----------------------------------------------- the pre-auth guard

  const INITIALIZE := "initialize"

  /** Request headers as far as the guard reads them; `contentLength` is set when the header is all digits. */
  datatype Headers = Headers(contentLength: Option<nat>, protocolVersion: Option<string>, apiKey: Option<string>,
                             authorization: Option<string>)

  /** `str.lower` on what can spell the scheme. */
  function Lower(ch: char): char {
    if 'A' <= ch <= 'Z' then (ch as int + 32) as char else ch
  }

  const BEARER := "bearer "

  /** The token of an Authorization header whose scheme is Bearer, in any case. */
  function BearerToken(authorization: Option<string>): Option<string> {
    if authorization.None? || |authorization.value| < 7 then None
    else
      var header := authorization.value;
      if forall i :: 0 <= i < 7 ==> Lower(header[i]) == BEARER[i] then Some(header[7..]) else None
  }

  lemma BearerTokenIff(header: string)
    ensures BearerToken(Some(header)).Some? <==>
            |header| >= 7 && header[6] == ' ' && forall i :: 0 <= i < 6 ==> header[i] in {"bearer"[i], "BEARER"[i]}
    ensures BearerToken(Some(header)).Some? ==> BearerToken(Some(header)).value == header[7..]
    ensures BearerToken(None) == None
  {
  }

  datatype Guarded = Status(code: nat) | Pass(receive: ReplayReceive) | Waiting

  /**
   The transport edges before authentication, in order: 405, 413 on the declared length before a byte is
   read, 413 on the streamed length, 400, 401. What passes sees the one buffered frame, within the cap
   whatever Content-Length claims, and then the unread rest of the stream. `peek` stands for the JSON-RPC
   method peek.
   */
  method PreAuthGuard(httpMethod: string, h: Headers, receive: AsgiReceive, peek: Bytes -> Option<string>,
                      supported: set<string>)
    returns (result: Guarded)
    modifies receive
    ensures httpMethod == "GET" ==> result == Status(405) && receive.pending == old(receive.pending)
    ensures httpMethod != "GET" && h.contentLength.Some? && h.contentLength.value > 5 * 1024 * 1024 ==>
      result == Status(413) && receive.pending == old(receive.pending)
    ensures httpMethod != "GET" && (h.contentLength.None? || h.contentLength.value <= 5 * 1024 * 1024) ==>
      var (outcome, rest) := ReadSpec(old(receive.pending), Some(5 * 1024 * 1024));
      && receive.pending == rest
      && (outcome.Blocked? <==> result.Waiting?)
      && (outcome.TooLarge? <==> result == Status(413))
      && (outcome.Body? ==>
            var unsupported := peek(outcome.bytes) != Some("initialize")
                               && h.protocolVersion.Some? && h.protocolVersion.value !in supported;
            var anonymous := h.apiKey in {None, Some("")} && BearerToken(h.authorization) in {None, Some("")};
            && (result == Status(400) <==> unsupported)
            && (result == Status(401) <==> !unsupported && anonymous)
            && (result.Pass? <==> !unsupported && !anonymous))
    ensures result.Pass? ==>
      var (outcome, rest) := ReadSpec(old(receive.pending), Some(5 * 1024 * 1024));
      && fresh(result.receive) && result.receive.original == receive
      && outcome.Body? && |outcome.bytes| <= 5 * 1024 * 1024
      && result.receive.Remaining() == [Request(outcome.bytes, false)] + rest
  {
    if httpMethod == "GET" {
      return Status(405);
    }
    if h.contentLength.Some? && h.contentLength.value > MAX_MCP_BODY_BYTES {
      return Status(413);
    }
    NeverOverCap(receive.pending, MAX_MCP_BODY_BYTES);
    var outcome := ReadFullBody(receive, Some(MAX_MCP_BODY_BYTES));
    if outcome.Blocked? {
      return Waiting;
    }
    if outcome.TooLarge? {
      return Status(413);
    }
    var rpcMethod := peek(outcome.bytes);
    if rpcMethod != Some(INITIALIZE) && h.protocolVersion.Some? && h.protocolVersion.value !in supported {
      return Status(400);
    }
    if h.apiKey.None? || h.apiKey.value == "" {
      var bearer := BearerToken(h.authorization);
      if bearer.None? || bearer.value == "" {
        return Status(401);
      }
    }
    var replay := new ReplayReceive(outcome.bytes, receive);
    result := Pass(replay);
  }
}
