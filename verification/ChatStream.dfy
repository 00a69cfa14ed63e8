/** The event sequence of one streamed chat turn, `stream_chat_completion`, and what its readers
    see. The model, the set-up of the turn and JSON encoding are parameters. */
module ChatStream {
  import opened Options
  import opened Text
  import opened SseFormat
  import SseSdkParser
  import SseRoundTrip
  import SseAppParser

  /** What the frames carry before encoding. */
  datatype Body =
    | UserMessage(message: string)
    | Sources(sources: string)
    | Delta(text: string)
    | AssistantMessage(content: string)
    | Empty
    | Failure(error: string)

  function NameOf(b: Body): string {
    match b
    case UserMessage(_) => "user_message"
    case Sources(_) => "sources"
    case Delta(_) => "delta"
    case AssistantMessage(_) => "assistant_message"
    case Empty => "done"
    case Failure(_) => "error"
  }

  function Sse(b: Body, encode: Body -> string): Item {
    Event(NameOf(b), encode(b))
  }

  /** JSON text of an object: one line, neither empty nor the sentinel. */
  ghost predicate Encodes(encode: Body -> string) {
    forall b :: OneLine(encode(b)) && encode(b) !in {"", "[DONE]"}
  }

  datatype Setup = Ready(user: string, sources: string) | Refused(error: string) | Gone

  /** What one turn of the loop over the model meets. */
  datatype Turn = Token(delta: string) | Silence | End | Broken(error: string) | Disconnected

  /** The model's stream: the deltas it would send (never empty ones) and how it would end; the number of the
      read that times out, if one does; and the number of the look at the connection that finds it gone. */
  datatype Stream = Stream(deltas: seq<string>, ending: Turn, slow: Option<nat>, leaves: Option<nat>)

  predicate Proper(m: Stream) {
    (m.ending.End? || m.ending.Broken?) && "" !in m.deltas
  }

  function Less(k: Option<nat>): Option<nat> {
    match k
    case None => None
    case Some(n) => if n == 0 then None else Some(n - 1)
  }

  /** What the loop meets. A read that times out cancels the generator behind it, so the next one finds it
      at its end, wherever the answer stood. */
  function Turns(m: Stream): (turns: seq<Turn>)
    decreases |m.deltas|
  {
    if m.leaves == Some(0) then [Disconnected]
    else if m.slow == Some(0) then [Silence, if m.leaves == Some(1) then Disconnected else End]
    else if m.deltas == [] then [m.ending]
    else [Token(m.deltas[0])] + Turns(Stream(m.deltas[1..], m.ending, Less(m.slow), Less(m.leaves)))
  }

  /** The deltas before the turn that ends the loop. */
  function Tokens(turns: seq<Turn>): seq<string> {
    if turns == [] then []
    else match turns[0]
      case Token(d) => [d] + Tokens(turns[1..])
      case Silence => Tokens(turns[1..])
      case _ => []
  }

  /** The turn that ends the loop; running out of turns means the stream was closed. */
  function LastTurn(turns: seq<Turn>): Turn {
    if turns == [] then Disconnected
    else if turns[0].Token? || turns[0].Silence? then LastTurn(turns[1..])
    else turns[0]
  }

  function DeltaFrames(deltas: seq<string>, encode: Body -> string): seq<Frame> {
    if deltas == [] then [] else [Frame("delta", encode(Delta(deltas[0])))] + DeltaFrames(deltas[1..], encode)
  }

  function FrameOfBody(b: Body, encode: Body -> string): Frame {
    Frame(NameOf(b), encode(b))
  }

  /** The frames of a turn, and whether the sentinel follows. */
  function TurnFrames(setup: Setup, turns: seq<Turn>, encode: Body -> string): (seq<Frame>, bool) {
    match setup
    case Gone => ([], false)
    case Refused(error) => ([FrameOfBody(Failure(error), encode)], true)
    case Ready(user, sources) =>
      var opening := [FrameOfBody(UserMessage(user), encode), FrameOfBody(Sources(sources), encode)];
      var deltas := opening + DeltaFrames(Tokens(turns), encode);
      match LastTurn(turns)
      case End => (deltas + [FrameOfBody(AssistantMessage(Concat(Tokens(turns))), encode), FrameOfBody(Empty, encode)], true)
      case Broken(error) => (deltas + [FrameOfBody(Failure(error), encode)], true)
      case _ => (deltas, false)
  }

  lemma FramesOfSnoc(items: seq<Item>, item: Item)
    ensures FramesOf(items + [item]) == FramesOf(items) + (if item.Heartbeat? then [] else [Frame(item.name, item.payload)])
  {
    PrintAllAppend(items, [item]);
    assert FramesOf([item]) == (if item.Heartbeat? then [] else [Frame(item.name, item.payload)]) + FramesOf([]);
  }

  /** The generator: what it yields, and whether its last yield was the sentinel. */
  method StreamCompletion(setup: Setup, model: Stream, encode: Body -> string) returns (out: seq<Item>, sentinel: bool)
    requires Encodes(encode) && Proper(model)
    ensures (FramesOf(out), sentinel) == TurnFrames(setup, Turns(model), encode)
    ensures AllPrintable(out)
    ensures out != [] && out[0] == Heartbeat
  {
    hide Encodes, AllPrintable, Concat, Tokens, LastTurn, DeltaFrames, Turns;
    HeartbeatFirst();
    out, sentinel := [Heartbeat], false;
    if setup.Gone? {
      return;
    }
    if setup.Refused? {
      out := Yield(out, Failure(setup.error), encode);
      assert FramesOf(out) == [FrameOfBody(Failure(setup.error), encode)];
      return out, true;
    }
    out := Yield(out, UserMessage(setup.user), encode);
    out := Yield(out, Sources(setup.sources), encode);
    assert FramesOf(out) == [FrameOfBody(UserMessage(setup.user), encode), FrameOfBody(Sources(setup.sources), encode)];
    var contentParts, last;
    out, contentParts, last := StreamTurns(out, Turns(model), encode);
    ghost var deltas := FramesOf(out);
    match last
    case End =>
      out := Yield(out, AssistantMessage(Concat(contentParts)), encode);
      out := Yield(out, Empty, encode);
      sentinel := true;
      assert FramesOf(out) == deltas + [FrameOfBody(AssistantMessage(Concat(contentParts)), encode), FrameOfBody(Empty, encode)];
    case Broken(error) =>
      out := Yield(out, Failure(error), encode);
      sentinel := true;
    case _ =>
  }

  lemma HeartbeatFirst()
    ensures FramesOf([Heartbeat]) == [] && AllPrintable([Heartbeat])
  {
    assert FramesOf([Heartbeat]) == [] + FramesOf([]);
  }

  /** The loop over the model's stream. */
  method StreamTurns(before: seq<Item>, turns: seq<Turn>, encode: Body -> string)
    returns (out: seq<Item>, contentParts: seq<string>, last: Turn)
    requires Encodes(encode) && AllPrintable(before) && before != []
    ensures contentParts == Tokens(turns) && last == LastTurn(turns)
    ensures FramesOf(out) == FramesOf(before) + DeltaFrames(Tokens(turns), encode)
    ensures AllPrintable(out) && out != [] && out[0] == before[0]
  {
    hide Encodes, AllPrintable, FramesOf, DeltaFrames;
    out, contentParts := before, [];
    var i := 0;
    assert turns[0..] == turns && [] + Tokens(turns) == Tokens(turns);
    NoDeltas(FramesOf(before), encode);
    while i < |turns| && (turns[i].Token? || turns[i].Silence?)
      invariant 0 <= i <= |turns|
      invariant contentParts + Tokens(turns[i..]) == Tokens(turns) && LastTurn(turns[i..]) == LastTurn(turns)
      invariant FramesOf(out) == FramesOf(before) + DeltaFrames(contentParts, encode)
      invariant AllPrintable(out) && out != [] && out[0] == before[0]
    {
      assert turns[i..][0] == turns[i] && turns[i..][1..] == turns[i + 1..];
      if turns[i].Silence? {
        out := Beat(out);
      } else {
        var delta := turns[i].delta;
        DeltaFramesSnoc(contentParts, delta, encode);
        assert contentParts + ([delta] + Tokens(turns[i + 1..])) == contentParts + [delta] + Tokens(turns[i + 1..]);
        contentParts := contentParts + [delta];
        out := Yield(out, Delta(delta), encode);
      }
      i := i + 1;
    }
    assert contentParts + [] == contentParts;
    if i < |turns| {
      assert turns[i..][0] == turns[i];
      last := turns[i];
    } else {
      last := Disconnected;
    }
  }

  lemma NoDeltas(frames: seq<Frame>, encode: Body -> string)
    ensures frames + DeltaFrames([], encode) == frames
  {}

  method Beat(out: seq<Item>) returns (more: seq<Item>)
    requires AllPrintable(out)
    ensures more == out + [Heartbeat] && FramesOf(more) == FramesOf(out) && AllPrintable(more)
  {
    FramesOfSnoc(out, Heartbeat);
    more := out + [Heartbeat];
  }

  method Yield(out: seq<Item>, b: Body, encode: Body -> string) returns (more: seq<Item>)
    requires Encodes(encode) && AllPrintable(out)
    ensures more == out + [Sse(b, encode)]
    ensures FramesOf(more) == FramesOf(out) + [FrameOfBody(b, encode)]
    ensures AllPrintable(more)
  {
    FramesOfSnoc(out, Sse(b, encode));
    NamesPrint(b);
    more := out + [Sse(b, encode)];
  }

  lemma NamesPrint(b: Body)
    ensures OneLine(NameOf(b)) && SseAppParser.Trim(NameOf(b)) == NameOf(b)
  {}

  lemma {:induction false} DeltaFramesSnoc(deltas: seq<string>, d: string, encode: Body -> string)
    ensures DeltaFrames(deltas + [d], encode) == DeltaFrames(deltas, encode) + [Frame("delta", encode(Delta(d)))]
  {
    if deltas == [] {
      assert deltas + [d] == [d] && [d][1..] == [];
    } else {
      assert (deltas + [d])[1..] == deltas[1..] + [d];
      DeltaFramesSnoc(deltas[1..], d, encode);
    }
  }

  // ----- From the generator to the reader -----

  /** A turn that ends well, printed, cut into any chunks and read by the SDK: the user message, the
      sources, every delta in order, the assistant message that is their concatenation, `done`. */
  lemma ReaderSeesTheTurn(out: seq<Item>, user: string, sources: string, turns: seq<Turn>, encode: Body -> string)
    requires AllPrintable(out) && LastTurn(turns) == End
    requires (FramesOf(out), true) == TurnFrames(Ready(user, sources), turns, encode)
    ensures SseSdkParser.Parse(PrintAll(out) + DONE)
         == [Frame("user_message", encode(UserMessage(user))), Frame("sources", encode(Sources(sources)))]
            + DeltaFrames(Tokens(turns), encode)
            + [Frame("assistant_message", encode(AssistantMessage(Concat(Tokens(turns))))), Frame("done", encode(Empty))]
  {
    hide *;
    SseRoundTrip.StreamRoundTrip(out);
    FramesOfGoodTurn(user, sources, turns, encode);
  }

  lemma FramesOfGoodTurn(user: string, sources: string, turns: seq<Turn>, encode: Body -> string)
    requires LastTurn(turns) == End
    ensures TurnFrames(Ready(user, sources), turns, encode).0
         == [Frame("user_message", encode(UserMessage(user))), Frame("sources", encode(Sources(sources)))]
            + DeltaFrames(Tokens(turns), encode)
            + [Frame("assistant_message", encode(AssistantMessage(Concat(Tokens(turns))))), Frame("done", encode(Empty))]
  {
    hide DeltaFrames, Tokens, Concat, LastTurn;
  }

  /** A turn that does not end well. When the model fails, the reader gets the deltas so far and one error, and no
      message and no `done`; when the set-up fails, the error alone; and the sentinel follows both. A reader who leaves
      is sent neither an error nor an end. */
  lemma TurnsThatFail(setup: Setup, turns: seq<Turn>, encode: Body -> string)
    ensures setup.Refused? ==>
              TurnFrames(setup, turns, encode) == ([Frame("error", encode(Failure(setup.error)))], true)
    ensures setup.Ready? && LastTurn(turns).Broken? ==>
              TurnFrames(setup, turns, encode)
              == ([Frame("user_message", encode(UserMessage(setup.user))), Frame("sources", encode(Sources(setup.sources)))]
                  + DeltaFrames(Tokens(turns), encode) + [Frame("error", encode(Failure(LastTurn(turns).error)))], true)
    ensures setup.Ready? && LastTurn(turns).Disconnected? ==>
              TurnFrames(setup, turns, encode)
              == ([Frame("user_message", encode(UserMessage(setup.user))), Frame("sources", encode(Sources(setup.sources)))]
                  + DeltaFrames(Tokens(turns), encode), false)
    ensures setup.Gone? ==> TurnFrames(setup, turns, encode) == ([], false)
  {
    hide DeltaFrames, Tokens, LastTurn;
  }

  /** What the SDK's reader makes of a turn whose model failed. */
  lemma ReaderSeesTheFailure(out: seq<Item>, user: string, sources: string, turns: seq<Turn>, encode: Body -> string)
    requires AllPrintable(out) && LastTurn(turns).Broken?
    requires (FramesOf(out), true) == TurnFrames(Ready(user, sources), turns, encode)
    ensures SseSdkParser.Parse(PrintAll(out) + DONE)
         == [Frame("user_message", encode(UserMessage(user))), Frame("sources", encode(Sources(sources)))]
            + DeltaFrames(Tokens(turns), encode) + [Frame("error", encode(Failure(LastTurn(turns).error)))]
  {
    hide *;
    SseRoundTrip.StreamRoundTrip(out);
    TurnsThatFail(Ready(user, sources), turns, encode);
  }

  // ----- Whole answers -----

  /** The deltas that arrive, and how the loop ends, while the reader stays: all of them and the model's own
      ending when no read times out; otherwise those before the read that does, and an end like any other. */
  lemma {:induction false} WhatArrives(m: Stream)
    requires Proper(m) && m.leaves == None
    ensures Tokens(Turns(m)) == (if TimesOut(m) then m.deltas[..m.slow.value] else m.deltas)
    ensures LastTurn(Turns(m)) == (if TimesOut(m) then End else m.ending)
    decreases |m.deltas|
  {
    if m.slow == Some(0) {
      TimeoutTurns();
    } else if m.deltas == [] {
      assert [m.ending][1..] == [];
    } else {
      var rest := Stream(m.deltas[1..], m.ending, Less(m.slow), None);
      WhatArrives(rest);
      assert ([Token(m.deltas[0])] + Turns(rest))[1..] == Turns(rest);
      assert m.deltas == [m.deltas[0]] + m.deltas[1..];
    }
  }

  /** A read of the answer, or of its end, takes too long. */
  predicate TimesOut(m: Stream) {
    m.slow.Some? && m.slow.value <= |m.deltas|
  }

  lemma TimeoutTurns()
    ensures Tokens([Silence, End]) == [] && LastTurn([Silence, End]) == End
  {
    assert [Silence, End][1..] == [End];
  }

  /** A turn that the reader's leaving does not end goes as if nobody could leave. */
  lemma {:induction false} StaysToTheEnd(m: Stream)
    requires !LastTurn(Turns(m)).Disconnected?
    ensures Turns(m) == Turns(m.(leaves := None))
    decreases |m.deltas|
  {
    if m.leaves == Some(0) {
      assert false;
    } else if m.slow == Some(0) {
      assert [Silence, Disconnected][1..] == [Disconnected];
    } else if m.deltas != [] {
      var rest := Stream(m.deltas[1..], m.ending, Less(m.slow), Less(m.leaves));
      assert ([Token(m.deltas[0])] + Turns(rest))[1..] == Turns(rest);
      StaysToTheEnd(rest);
    }
  }

  /** A turn that is closed as complete brings the model's whole answer if and only if no read of a delta
      timed out; one that did, with the reader still there, cuts the answer short, and the turn is closed as
      complete all the same. */
  lemma AnswerIsWholeIff(m: Stream)
    requires Proper(m)
    ensures LastTurn(Turns(m)) == End ==>
              (Concat(Tokens(Turns(m))) == Concat(m.deltas) <==> !(m.slow.Some? && m.slow.value < |m.deltas|))
    ensures !LastTurn(Turns(m)).Disconnected? && m.slow.Some? && m.slow.value < |m.deltas| ==>
              LastTurn(Turns(m)) == End && |Concat(Tokens(Turns(m)))| < |Concat(m.deltas)|
  {
    if !LastTurn(Turns(m)).Disconnected? {
      StaysToTheEnd(m);
      WhatArrives(m.(leaves := None));
      hide Turns, Tokens, LastTurn, Concat, Proper;
      if m.slow.Some? && m.slow.value < |m.deltas| {
        PrefixIsShorter(m, m.slow.value);
      } else {
        WholeArrives(m);
      }
    }
  }

  lemma WholeArrives(m: Stream)
    requires !(m.slow.Some? && m.slow.value < |m.deltas|)
    ensures (if TimesOut(m) then m.deltas[..m.slow.value] else m.deltas) == m.deltas
  {
    assert m.deltas[..|m.deltas|] == m.deltas;
  }

  lemma PrefixIsShorter(m: Stream, k: nat)
    requires k < |m.deltas| && Proper(m)
    ensures |Concat(m.deltas[..k])| < |Concat(m.deltas)|
  {
    assert m.deltas == m.deltas[..k] + m.deltas[k..];
    ConcatAppend(m.deltas[..k], m.deltas[k..]);
    assert m.deltas[k] in m.deltas;
    assert Concat(m.deltas[k..]) == m.deltas[k] + Concat(m.deltas[k..][1..]);
  }

  /** What the SDK's reader makes of a cut answer: the message holds what arrived before the slow read, then
      `done`; nothing tells it from a whole one. */
  lemma ReaderSeesACutAnswer(out: seq<Item>, user: string, sources: string, m: Stream, encode: Body -> string)
    requires AllPrintable(out) && Proper(m) && m.leaves == None && TimesOut(m)
    requires (FramesOf(out), true) == TurnFrames(Ready(user, sources), Turns(m), encode)
    ensures SseSdkParser.Parse(PrintAll(out) + DONE)
         == [Frame("user_message", encode(UserMessage(user))), Frame("sources", encode(Sources(sources)))]
            + DeltaFrames(m.deltas[..m.slow.value], encode)
            + [Frame("assistant_message", encode(AssistantMessage(Concat(m.deltas[..m.slow.value])))),
               Frame("done", encode(Empty))]
  {
    WhatArrives(m);
    hide *;
    ReaderSeesTheTurn(out, user, sources, Turns(m), encode);
  }
}
