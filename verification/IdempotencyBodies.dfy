/** The two message loops of the idempotency middleware: reading a request body so that it can be read
    again, and recording a response while it is sent. */
module IdempotencyBodies {

  type Bytes = seq<bv8>

  const MAX_CACHED_BODY_BYTES := 64 * 1024
  const MAX_REQUEST_BODY_BYTES := 8 * 1024 * 1024

  // ----- Requests -----

  /** What `receive` gives: a part of the body, or anything else (a disconnect). */
  datatype Incoming = Part(body: Bytes, more: bool) | OtherMessage

  /** The messages up to the one that ends the body; all of them while none does. */
  function UpToEnd(messages: seq<Incoming>): (r: seq<Incoming>)
    ensures r <= messages
  {
    if messages == [] then []
    else if messages[0].Part? && messages[0].more then [messages[0]] + UpToEnd(messages[1..])
    else [messages[0]]
  }

  predicate Ends(messages: seq<Incoming>) {
    exists m <- messages :: !(m.Part? && m.more)
  }

  function PartBody(m: Incoming): Bytes {
    if m.Part? then m.body else []
  }

  function BodyOf(messages: seq<Incoming>): Bytes {
    if messages == [] then []
    else BodyOf(messages[..|messages| - 1]) + PartBody(messages[|messages| - 1])
  }

  /** The outcome of reading: the whole body and the messages it came in; or, for a body over the limit,
      the messages up to the one that crossed it; or nothing while the end has not arrived. */
  datatype Reading =
    | Whole(body: Bytes, messages: seq<Incoming>)
    | TooLarge(messages: seq<Incoming>)
    | Waiting

  method ReadRequestBody(incoming: seq<Incoming>) returns (r: Reading)
    ensures r.Waiting? ==> !Ends(incoming)
    ensures r.Whole? ==> Ends(incoming) && r.messages == UpToEnd(incoming) && r.body == BodyOf(r.messages)
    ensures r.Whole? ==> |r.body| <= 8 * 1024 * 1024
    ensures r.TooLarge? ==> r.messages <= UpToEnd(incoming) && |BodyOf(r.messages)| > 8 * 1024 * 1024
    ensures Ends(incoming) && |BodyOf(UpToEnd(incoming))| <= 8 * 1024 * 1024 ==> r.Whole?
  {
    hide UpToEnd;
    var body: Bytes := [];
    var total := 0;
    var i := 0;
    while i < |incoming|
      invariant 0 <= i <= |incoming|
      invariant AllOpen(incoming[..i])
      invariant body == BodyOf(incoming[..i]) && total == |body| <= MAX_REQUEST_BODY_BYTES
    {
      var message := incoming[i];
      BodyAppend(incoming[..i], message);
      assert incoming[..i + 1] == incoming[..i] + [message];
      StillOpen(incoming, i);
      i := i + 1;
      if message.OtherMessage? {
        return Whole(body, incoming[..i]);
      }
      total := total + |message.body|;
      if total > MAX_REQUEST_BODY_BYTES {
        BodyGrows(incoming[..i], UpToEnd(incoming));
        return TooLarge(incoming[..i]);
      }
      body := body + message.body;
      if !message.more {
        return Whole(body, incoming[..i]);
      }
    }
    assert incoming[..i] == incoming;
    r := Waiting;
  }

  /** Bodies are put together in the order of their messages. */
  lemma {:induction false} BodiesAreInOrder(a: seq<Incoming>, b: seq<Incoming>)
    ensures BodyOf(a + b) == BodyOf(a) + BodyOf(b)
    decreases |b|
  {
    if b == [] {
      Nothing(a);
      Nothing(BodyOf(a));
    } else {
      hide *;
      var front, m := b[..|b| - 1], b[|b| - 1];
      BodiesAreInOrder(a, front);
      BodyAppend(a + front, m);
      BodyAppend(front, m);
      Snoc(a, b);
      Assoc(BodyOf(a), BodyOf(front), PartBody(m));
    }
  }

  lemma Nothing<T>(s: seq<T>)
    ensures s + [] == s
  {}

  lemma Snoc<T>(a: seq<T>, b: seq<T>)
    requires b != []
    ensures var n := |b| - 1; b == b[..n] + [b[n]] && a + b == a + b[..n] + [b[n]]
  {}

  lemma Assoc<T>(a: seq<T>, b: seq<T>, c: seq<T>)
    ensures a + (b + c) == a + b + c
  {}

  lemma BodyOfOne(body: Bytes, more: bool)
    ensures BodyOf([Part(body, more)]) == body && BodyOf([OtherMessage]) == []
  {
    assert [Part(body, more)][..0] == [] && [OtherMessage][..0] == [];
    assert BodyOf([]) == [] && [] + body == body;
  }

  predicate AllOpen(messages: seq<Incoming>) {
    forall m <- messages :: m.Part? && m.more
  }

  lemma BodyAppend(messages: seq<Incoming>, m: Incoming)
    ensures BodyOf(messages + [m]) == BodyOf(messages) + PartBody(m)
  {
    assert (messages + [m])[..|messages|] == messages;
  }

  /** While every part so far announces more, the next message belongs to the body; it is the last one
      when it does not. */
  lemma {:induction false} StillOpen(messages: seq<Incoming>, i: nat)
    requires i < |messages| && AllOpen(messages[..i])
    ensures messages[..i + 1] <= UpToEnd(messages)
    ensures AllOpen([messages[i]]) ==> AllOpen(messages[..i + 1])
    ensures !AllOpen([messages[i]]) ==> Ends(messages) && UpToEnd(messages) == messages[..i + 1]
    decreases |messages|
  {
    assert messages[..i + 1] == messages[..i] + [messages[i]];
    assert !AllOpen([messages[i]]) ==> messages[i] in messages;
    if i > 0 {
      assert messages[0] in messages[..i];
      assert messages[1..][..i - 1] == messages[..i][1..];
      StillOpen(messages[1..], i - 1);
      assert messages[..i + 1] == [messages[0]] + messages[1..][..i];
    }
  }

  lemma {:induction false} BodyGrows(a: seq<Incoming>, b: seq<Incoming>)
    requires a <= b
    ensures |BodyOf(a)| <= |BodyOf(b)|
    decreases |b|
  {
    if a != b {
      BodyGrows(a, b[..|b| - 1]);
    }
  }

  /** The `receive` handed to the application: the messages again, then empty final parts. */
  class ReplayReceive {
    var remaining: seq<Incoming>

    constructor (messages: seq<Incoming>)
      ensures remaining == messages
    {
      remaining := messages;
    }

    method Receive() returns (m: Incoming)
      modifies this
      ensures old(remaining) != [] ==> m == old(remaining)[0] && remaining == old(remaining)[1..]
      ensures old(remaining) == [] ==> m == Part([], false) && remaining == []
    {
      if remaining != [] {
        m := remaining[0];
        remaining := remaining[1..];
      } else {
        m := Part([], false);
      }
    }
  }

  /** An application that reads the replayed messages to the end finds the same body, whatever is
      replayed after it. */
  lemma {:induction false} ReplayKeepsTheBody(incoming: seq<Incoming>, after: seq<Incoming>)
    requires Ends(incoming)
    ensures Ends(UpToEnd(incoming) + after)
    ensures UpToEnd(UpToEnd(incoming) + after) == UpToEnd(incoming)
    decreases |incoming|
  {
    var first, others := incoming[0], incoming[1..];
    assert incoming == [first] + others;
    hide UpToEnd, Ends, AllOpen;
    if AllOpen([first]) {
      OpenFirst(first, others);
      ReplayKeepsTheBody(others, after);
      var rest := UpToEnd(others);
      Prepend(first, rest, after);
      OpenFirst(first, rest + after);
    } else {
      ClosedFirst(first, others);
      ClosedFirst(first, after);
    }
  }

  lemma Prepend<T>(x: T, a: seq<T>, b: seq<T>)
    ensures [x] + a + b == [x] + (a + b)
  {}

  lemma ClosedFirst(first: Incoming, others: seq<Incoming>)
    requires !AllOpen([first])
    ensures Ends([first] + others) && UpToEnd([first] + others) == [first]
  {
    assert ([first] + others)[0] == first;
  }

  lemma OpenFirst(first: Incoming, others: seq<Incoming>)
    requires AllOpen([first])
    ensures Ends([first] + others) == Ends(others)
    ensures UpToEnd([first] + others) == [first] + UpToEnd(others)
  {
    assert first in [first];
    assert ([first] + others)[1..] == others;
  }

  // ----- Responses -----

  datatype Header = Header(name: string, value: string)

  datatype Outgoing = ResponseStart(status: int, headers: seq<Header>) | ResponseBody(body: Bytes) | OtherOutgoing

  datatype Recorder = Recorder(status: int, headers: seq<Header>, chunks: seq<Bytes>, size: nat, cacheable: bool)

  const NEW_RECORDER := Recorder(0, [], [], 0, true)

  function Concat(chunks: seq<Bytes>): Bytes {
    if chunks == [] then [] else Concat(chunks[..|chunks| - 1]) + chunks[|chunks| - 1]
  }

  /** What `send_wrapper` keeps of one message. */
  function Record(r: Recorder, m: Outgoing): Recorder {
    match m
    case ResponseStart(status, headers) => r.(status := status, headers := headers)
    case ResponseBody(body) =>
      if body == [] then r
      else if r.cacheable && r.size + |body| <= MAX_CACHED_BODY_BYTES then
        r.(size := r.size + |body|, chunks := r.chunks + [body])
      else r.(size := r.size + |body|, cacheable := false, chunks := [])
    case OtherOutgoing => r
  }

  function RecordAll(messages: seq<Outgoing>): Recorder {
    if messages == [] then NEW_RECORDER
    else Record(RecordAll(messages[..|messages| - 1]), messages[|messages| - 1])
  }

  function SentPart(m: Outgoing): Bytes {
    if m.ResponseBody? then m.body else []
  }

  /** The body the client was sent. */
  function SentBody(messages: seq<Outgoing>): Bytes {
    if messages == [] then []
    else SentBody(messages[..|messages| - 1]) + SentPart(messages[|messages| - 1])
  }

  /** So is what was sent. */
  lemma {:induction false} SentInOrder(a: seq<Outgoing>, b: seq<Outgoing>)
    ensures SentBody(a + b) == SentBody(a) + SentBody(b)
    decreases |b|
  {
    if b == [] {
      Nothing(a);
      Nothing(SentBody(a));
    } else {
      hide *;
      var front, m := b[..|b| - 1], b[|b| - 1];
      SentInOrder(a, front);
      SentAppend(a + front, m);
      SentAppend(front, m);
      Snoc(a, b);
      Assoc(SentBody(a), SentBody(front), SentPart(m));
    }
  }

  lemma SentAppend(messages: seq<Outgoing>, m: Outgoing)
    ensures SentBody(messages + [m]) == SentBody(messages) + SentPart(m)
  {
    assert (messages + [m])[..|messages|] == messages;
  }

  lemma SentByOne(body: Bytes)
    ensures SentBody([ResponseBody(body)]) == body && SentBody([OtherOutgoing]) == []
  {
    assert [ResponseBody(body)][..0] == [] && [OtherOutgoing][..0] == [];
    assert SentBody([]) == [] && [] + body == body;
  }

  /** A recording is worth caching exactly when the whole body is within the limit, and then the recorded
      chunks are the whole body. */
  lemma {:induction false} RecordingIsWholeOrNothing(messages: seq<Outgoing>)
    ensures var r := RecordAll(messages);
            && (r.cacheable <==> |SentBody(messages)| <= MAX_CACHED_BODY_BYTES)
            && r.size == |SentBody(messages)|
            && Concat(r.chunks) == if r.cacheable then SentBody(messages) else []
  {
    if messages != [] {
      var n := |messages| - 1;
      RecordingIsWholeOrNothing(messages[..n]);
      var r := RecordAll(messages[..n]);
      match messages[n]
      case ResponseBody(body) =>
        assert (r.chunks + [body])[..|r.chunks|] == r.chunks;
      case _ =>
    }
  }

  /** Status and headers are those of the last start that was sent; without one there are none. */
  lemma {:induction false} LastStartCounts(messages: seq<Outgoing>, after: seq<Outgoing>)
    requires forall m <- after :: !m.ResponseStart?
    ensures messages != [] && messages[|messages| - 1].ResponseStart? ==>
              && RecordAll(messages + after).status == messages[|messages| - 1].status
              && RecordAll(messages + after).headers == messages[|messages| - 1].headers
    ensures messages == [] ==> RecordAll(after).status == 0 && RecordAll(after).headers == []
    decreases |after|
  {
    if after == [] {
      assert messages + after == messages;
    } else {
      var n := |after| - 1;
      LastStartCounts(messages, after[..n]);
      assert (messages + after)[..|messages| + n] == messages + after[..n];
      assert after[n] in after;
    }
  }

  class ResponseRecorder {
    var statusCode: int
    var responseHeaders: seq<Header>
    var bodyChunks: seq<Bytes>
    var bodySize: nat
    var cacheableBody: bool
    var sent: seq<Outgoing>

    ghost predicate Valid()
      reads this
    {
      Recorder(statusCode, responseHeaders, bodyChunks, bodySize, cacheableBody) == RecordAll(sent)
    }

    constructor ()
      ensures Valid() && sent == []
    {
      statusCode, responseHeaders, bodyChunks, bodySize, cacheableBody := 0, [], [], 0, true;
      sent := [];
    }

    /** `send_wrapper`: every message goes to the client as it is. */
    method Send(message: Outgoing)
      requires Valid()
      modifies this
      ensures Valid() && sent == old(sent) + [message]
    {
      OneMoreRecorded(sent, message);
      hide RecordAll;
      match message {
        case ResponseStart(status, headers) =>
          statusCode, responseHeaders := status, headers;
        case ResponseBody(chunk) =>
          if chunk != [] {
            bodySize := bodySize + |chunk|;
            if cacheableBody && bodySize <= MAX_CACHED_BODY_BYTES {
              bodyChunks := bodyChunks + [chunk];
            } else {
              cacheableBody := false;
              bodyChunks := [];
            }
          }
        case OtherOutgoing =>
      }
      sent := sent + [message];
    }
  }

  lemma OneMoreRecorded(sent: seq<Outgoing>, message: Outgoing)
    ensures RecordAll(sent + [message]) == Record(RecordAll(sent), message)
  {
    hide Record;
    assert (sent + [message])[..|sent|] == sent;
  }
}
