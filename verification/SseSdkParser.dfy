/** The SDK's incremental parser, `parseSSEFrames`. Chunks are what the text decoder returns. */
module SseSdkParser {
  import opened Text
  import opened SseFormat

  // ----- Lines -----

  /** Drop one trailing carriage return. */
  function Chop(s: string): string {
    if EndsWithCr(s) then s[..|s| - 1] else s
  }

  /** `value.replace(/^ /, "")`. */
  function DropSpace(s: string): string {
    if s != "" && s[0] == ' ' then s[1..] else s
  }

  predicate StartsWith(s: string, prefix: string) {
    |prefix| <= |s| && s[..|prefix|] == prefix
  }

  /** Where the first line feed stands, or the length when there is none. */
  function FirstLf(s: string): (n: nat)
    ensures n <= |s|
    ensures forall k :: 0 <= k < n ==> s[k] != '\n'
    ensures n < |s| ==> s[n] == '\n'
  {
    if s == "" || s[0] == '\n' then 0 else 1 + FirstLf(s[1..])
  }

  /** `s.split(/\r?\n/)` without its last part: the complete lines. */
  function Lines(s: string): seq<string> {
    var i := FirstLf(s);
    if i == |s| then [] else [Chop(s[..i])] + Lines(s[i + 1..])
  }

  /** The last part of that split: the line still open. */
  function Rest(s: string): string {
    var i := FirstLf(s);
    if i == |s| then s else Rest(s[i + 1..])
  }

  // ----- The parser as a function -----

  /** The fields collected for the frame under construction. */
  datatype Pending = Pending(event: string, dataLines: seq<string>)

  const FRESH := Pending("message", [])

  function Flush(p: Pending): seq<Frame> {
    var payload := Join(p.dataLines, "\n");
    if payload == "" || payload == "[DONE]" then [] else [Frame(p.event, payload)]
  }

  /** A field line, already stripped of its carriage return. */
  function Field(p: Pending, line: string): Pending {
    if StartsWith(line, ":") then p
    else if StartsWith(line, "event:") then p.(event := DropSpace(line[6..]))
    else if StartsWith(line, "data:") then p.(dataLines := p.dataLines + [DropSpace(line[5..])])
    else p
  }

  /** `consumeLine`: the next pending state and the frame it yields, if any. */
  function Consume(p: Pending, rawLine: string): (Pending, seq<Frame>) {
    var line := Chop(rawLine);
    if line == "" then (FRESH, Flush(p)) else (Field(p, line), [])
  }

  function ConsumeAll(p: Pending, lines: seq<string>): (Pending, seq<Frame>)
    decreases |lines|
  {
    if lines == [] then (p, [])
    else
      var (q, frames) := Consume(p, lines[0]);
      var (r, more) := ConsumeAll(q, lines[1..]);
      (r, frames + more)
  }

  /** What is left over when the stream ends: the open line is consumed without yielding, and the
      pending frame is delivered although no blank line ended it. */
  function Trailing(p: Pending, buffer: string): seq<Frame> {
    var tail := Chop(buffer);
    if tail == "" then Flush(p) else Flush(Consume(p, tail).0)
  }

  /** The parser run on the whole text at once. */
  function Parse(text: string): seq<Frame> {
    var (p, frames) := ConsumeAll(FRESH, Lines(text));
    frames + Trailing(p, Rest(text))
  }

  // ----- The incremental parser -----

  class Parser {
    var buffer: string
    var event: string
    var dataLines: seq<string>

    constructor ()
      ensures buffer == "" && State() == FRESH
    {
      buffer, event, dataLines := "", "message", [];
    }

    function State(): Pending
      reads this
    {
      Pending(event, dataLines)
    }

    /** The closure `consumeLine`; a frame is returned as a sequence of at most one. */
    method ConsumeLine(rawLine: string) returns (frame: seq<Frame>)
      modifies this
      ensures (State(), frame) == Consume(old(State()), rawLine)
      ensures buffer == old(buffer)
    {
      frame := [];
      var line := if EndsWithCr(rawLine) then rawLine[..|rawLine| - 1] else rawLine;
      if line == "" {
        frame := Flush(State());
        event := "message";
        dataLines := [];
        return;
      }
      if StartsWith(line, ":") {
        return;
      }
      if StartsWith(line, "event:") {
        event := DropSpace(line[6..]);
      } else if StartsWith(line, "data:") {
        dataLines := dataLines + [DropSpace(line[5..])];
      }
    }

    /** One turn of the read loop. */
    method Feed(chunk: string) returns (frames: seq<Frame>)
      modifies this
      ensures (State(), frames) == ConsumeAll(old(State()), Lines(old(buffer) + chunk))
      ensures buffer == Rest(old(buffer) + chunk)
    {
      frames := [];
      buffer := buffer + chunk;
      var lines := Lines(buffer);
      buffer := Rest(buffer);
      var i := 0;
      assert lines[0..] == lines;
      assert [] + ConsumeAll(State(), lines).1 == ConsumeAll(State(), lines).1;
      while i < |lines|
        invariant 0 <= i <= |lines|
        invariant buffer == Rest(old(buffer) + chunk)
        invariant var (q, more) := ConsumeAll(State(), lines[i..]);
                  ConsumeAll(old(State()), lines) == (q, frames + more)
      {
        assert lines[i..][0] == lines[i] && lines[i..][1..] == lines[i + 1..];
        var before := frames;
        var frame := ConsumeLine(lines[i]);
        frames := frames + frame;
        ghost var more := ConsumeAll(State(), lines[i + 1..]).1;
        assert before + (frame + more) == frames + more;
        i := i + 1;
      }
      assert lines[|lines|..] == [];
      assert frames + [] == frames;
    }
  }

  /** `parseSSEFrames`: however the text is cut into chunks, the frames are those of the whole. */
  method ParseSSEFrames(chunks: seq<string>) returns (frames: seq<Frame>)
    ensures frames == Parse(Concat(chunks))
  {
    var parser := new Parser();
    frames := [];
    ghost var read := "";
    var i := 0;
    assert chunks[..0] == [] && Concat([]) == "";
    NothingRead();
    hide Lines, Rest, ConsumeAll, Flush, Field, Concat;
    while i < |chunks|
      invariant 0 <= i <= |chunks| && read == Concat(chunks[..i])
      invariant parser.buffer == Rest(read)
      invariant (parser.State(), frames) == ConsumeAll(FRESH, Lines(read))
    {
      var more := parser.Feed(chunks[i]);
      FeedStep(read, chunks[i]);
      frames := frames + more;
      ConcatStep(chunks, i);
      read := read + chunks[i];
      i := i + 1;
    }
    assert chunks[..|chunks|] == chunks;
    ghost var p := parser.State();
    var tail := Chop(parser.buffer);
    if tail != "" {
      var _ := parser.ConsumeLine(tail);
    }
    frames := frames + Flush(parser.State());
  }

  lemma ConcatStep(chunks: seq<string>, i: nat)
    requires i < |chunks|
    ensures Concat(chunks[..i + 1]) == Concat(chunks[..i]) + chunks[i]
  {
    assert chunks[..i + 1] == chunks[..i] + [chunks[i]];
    ConcatAppend(chunks[..i], [chunks[i]]);
    assert Concat([chunks[i]]) == chunks[i] + Concat([]) == chunks[i];
  }

  lemma NothingRead()
    ensures Rest("") == "" && ConsumeAll(FRESH, Lines("")) == (FRESH, [])
  {}

  // ----- Cutting anywhere -----

  lemma FirstLfAppend(a: string, b: string)
    ensures FirstLf(a) < |a| ==> FirstLf(a + b) == FirstLf(a)
    ensures FirstLf(a) == |a| ==> FirstLf(a + b) == |a| + FirstLf(b)
  {
    if a == "" {
      assert a + b == b;
    } else {
      FirstLfAppend(a[1..], b);
      assert (a + b)[1..] == a[1..] + b;
    }
  }

  /** The open line is continued. */
  lemma {:induction false} RestAppend(a: string, b: string)
    ensures Rest(a + b) == Rest(Rest(a) + b)
    decreases |a|
  {
    hide FirstLf;
    var i := FirstLf(a);
    FirstLfAppend(a, b);
    if i < |a| {
      RestAppend(a[i + 1..], b);
      assert (a + b)[i + 1..] == a[i + 1..] + b;
    }
  }

  /** Completed lines stay. */
  lemma {:induction false} LinesAppend(a: string, b: string)
    ensures Lines(a + b) == Lines(a) + Lines(Rest(a) + b)
    decreases |a|
  {
    hide Chop, FirstLf;
    var i := FirstLf(a);
    FirstLfAppend(a, b);
    if i < |a| {
      LinesAppend(a[i + 1..], b);
      assert (a + b)[..i] == a[..i];
      assert (a + b)[i + 1..] == a[i + 1..] + b;
    }
  }

  lemma {:induction false} ConsumeAllAppend(p: Pending, a: seq<string>, b: seq<string>)
    ensures var (q, first) := ConsumeAll(p, a);
            var (r, second) := ConsumeAll(q, b);
            ConsumeAll(p, a + b) == (r, first + second)
    decreases |a|
  {
    hide Consume;
    if a == [] {
      assert a + b == b;
      assert [] + ConsumeAll(p, b).1 == ConsumeAll(p, b).1;
    } else {
      assert (a + b)[1..] == a[1..] + b;
      var (q, frame) := Consume(p, a[0]);
      ConsumeAllAppend(q, a[1..], b);
      var (r, first) := ConsumeAll(q, a[1..]);
      assert frame + (first + ConsumeAll(r, b).1) == (frame + first) + ConsumeAll(r, b).1;
    }
  }

  lemma FeedStep(read: string, chunk: string)
    ensures var (q, first) := ConsumeAll(FRESH, Lines(read));
            var (r, second) := ConsumeAll(q, Lines(Rest(read) + chunk));
            ConsumeAll(FRESH, Lines(read + chunk)) == (r, first + second)
    ensures Rest(read + chunk) == Rest(Rest(read) + chunk)
  {
    LinesAppend(read, chunk);
    RestAppend(read, chunk);
    ConsumeAllAppend(FRESH, Lines(read), Lines(Rest(read) + chunk));
  }

  /** A frame, once yielded, does not depend on what the stream sends later. */
  lemma YieldedFramesStay(read: string, later: string)
    ensures ConsumeAll(FRESH, Lines(read)).1 <= ConsumeAll(FRESH, Lines(read + later)).1
  {
    FeedStep(read, later);
  }

  // ----- The format as blocks of lines -----

  /** Cut a list of lines at its blank lines; the last block is the one no blank line ended. */
  function Blocks(lines: seq<string>): (blocks: seq<seq<string>>)
    ensures blocks != []
  {
    if lines == [] then [[]]
    else
      var blocks, line := Blocks(lines[..|lines| - 1]), lines[|lines| - 1];
      if line == "" then blocks + [[]] else Init(blocks) + [Last(blocks) + [line]]
  }

  function Init(blocks: seq<seq<string>>): seq<seq<string>>
    requires blocks != []
  {
    blocks[..|blocks| - 1]
  }

  function Last(blocks: seq<seq<string>>): seq<string>
    requires blocks != []
  {
    blocks[|blocks| - 1]
  }

  /** The value of the last `event:` line of a block. */
  function EventOf(block: seq<string>): string {
    if block == [] then "message"
    else
      var line := block[|block| - 1];
      if StartsWith(line, "event:") then DropSpace(line[6..]) else EventOf(block[..|block| - 1])
  }

  /** The values of the `data:` lines of a block. */
  function DataOf(block: seq<string>): seq<string> {
    if block == [] then []
    else
      var line := block[|block| - 1];
      DataOf(block[..|block| - 1])
      + (if StartsWith(line, "data:") then [DropSpace(line[5..])] else [])
  }

  /** A block is one frame, unless its data is empty or the sentinel. */
  function FrameOf(block: seq<string>): seq<Frame> {
    var payload := Join(DataOf(block), "\n");
    if payload == "" || payload == "[DONE]" then [] else [Frame(EventOf(block), payload)]
  }

  function FramesOfBlocks(blocks: seq<seq<string>>): seq<Frame> {
    if blocks == [] then [] else FrameOf(blocks[0]) + FramesOfBlocks(blocks[1..])
  }

  function Chopped(lines: seq<string>): seq<string> {
    seq(|lines|, i requires 0 <= i < |lines| => Chop(lines[i]))
  }

  /** The lines of a text, the open one included unless it is empty. */
  function AllLines(text: string): seq<string> {
    var tail := Chop(Rest(text));
    Chopped(Lines(text)) + (if tail == "" then [] else [Chop(tail)])
  }

  function PendingOf(block: seq<string>): Pending {
    Pending(EventOf(block), DataOf(block))
  }

  lemma FieldExtends(block: seq<string>, line: string)
    ensures Field(PendingOf(block), line) == PendingOf(block + [line])
  {
    assert (block + [line])[..|block|] == block;
    assert (block + [line])[|block|] == line;
    assert StartsWith(line, ":") ==> line[0] == ':';
    assert StartsWith(line, "event:") ==> line[0] == line[..6][0] == 'e';
    assert StartsWith(line, "data:") ==> line[0] == line[..5][0] == 'd';
  }

  /** Adding a line to the open block, or closing it. */
  lemma BlocksGrow(lines: seq<string>, line: string)
    ensures var bs := Blocks(lines);
            Blocks(lines + [line]) == if line == "" then bs + [[]] else Init(bs) + [Last(bs) + [line]]
  {
    assert (lines + [line])[..|lines|] == lines;
  }

  lemma {:induction false} OneBlock(block: seq<string>)
    requires "" !in block
    ensures Blocks(block) == [block]
  {
    if block != [] {
      var n := |block| - 1;
      OneBlock(block[..n]);
      assert block[..n] + [block[n]] == block;
    }
  }

  lemma {:induction false} BlocksCut(block: seq<string>, lines: seq<string>)
    requires "" !in block
    ensures Blocks(block + [""] + lines) == [block] + Blocks(lines)
    decreases |lines|
  {
    hide Blocks;
    if lines == [] {
      OneBlock(block);
      OneBlock([]);
      BlocksGrow(block, "");
      assert block + [""] + lines == block + [""];
    } else {
      var n := |lines| - 1;
      var bs := Blocks(lines[..n]);
      BlocksCut(block, lines[..n]);
      BlocksGrow(block + [""] + lines[..n], lines[n]);
      BlocksGrow(lines[..n], lines[n]);
      assert lines[..n] + [lines[n]] == lines;
      assert block + [""] + lines[..n] + [lines[n]] == block + [""] + lines;
      assert Init([block] + bs) == [block] + Init(bs) && Last([block] + bs) == Last(bs);
    }
  }

  lemma {:induction false} FramesOfBlocksAppend(a: seq<seq<string>>, b: seq<seq<string>>)
    ensures FramesOfBlocks(a + b) == FramesOfBlocks(a) + FramesOfBlocks(b)
  {
    if a == [] {
      assert a + b == b;
    } else {
      assert (a + b)[1..] == a[1..] + b;
      FramesOfBlocksAppend(a[1..], b);
    }
  }

  /** Reading line by line yields the frames of the completed blocks and keeps the open block. */
  lemma {:induction false} ConsumeAllIsBlocks(block: seq<string>, lines: seq<string>)
    requires "" !in block
    ensures var bs := Blocks(block + Chopped(lines));
            ConsumeAll(PendingOf(block), lines) == (PendingOf(Last(bs)), FramesOfBlocks(Init(bs)))
    decreases |lines|
  {
    hide Field, EventOf, DataOf, Chop, Blocks;
    if lines == [] {
      OneBlock(block);
      assert block + Chopped(lines) == block;
    } else {
      var line, rest := Chop(lines[0]), lines[1..];
      assert Chopped(lines) == [line] + Chopped(rest);
      if line == "" {
        ConsumeAllIsBlocks([], rest);
        BlocksCut(block, Chopped(rest));
        assert block + Chopped(lines) == block + [""] + Chopped(rest);
        assert [] + Chopped(rest) == Chopped(rest);
        var bs := Blocks(Chopped(rest));
        assert Init([block] + bs) == [block] + Init(bs);
        assert ([block] + Init(bs))[1..] == Init(bs);
        EmptyBlock();
      } else {
        FieldExtends(block, line);
        ConsumeAllIsBlocks(block + [line], rest);
        assert block + Chopped(lines) == block + [line] + Chopped(rest);
        var more := ConsumeAll(PendingOf(block + [line]), rest).1;
        assert [] + more == more;
      }
    }
  }

  lemma FramesOfBlocksSplit(bs: seq<seq<string>>)
    requires bs != []
    ensures FramesOfBlocks(bs) == FramesOfBlocks(Init(bs)) + FrameOf(Last(bs))
  {
    FramesOfBlocksAppend(Init(bs), [Last(bs)]);
    assert bs == Init(bs) + [Last(bs)];
    assert FramesOfBlocks([Last(bs)]) == FrameOf(Last(bs)) + FramesOfBlocks([]);
  }

  /** The parser against the format: the frames of all blocks, the last, unterminated one included.
      The one exception is a text that ends in an open line of exactly two carriage returns: that
      line is read as the blank line which ends the pending block, but the frame it yields is
      thrown away. */
  lemma ParseIsBlocks(text: string)
    ensures Parse(text)
         == if Rest(text) == "\r\r" then FramesOfBlocks(Init(Blocks(Chopped(Lines(text)))))
            else FramesOfBlocks(Blocks(AllLines(text)))
  {
    hide Field, FrameOf, EventOf, DataOf;
    var lines := Chopped(Lines(text));
    var bs := Blocks(lines);
    EmptyBlock();
    assert [] + lines == lines;
    ConsumeAllIsBlocks([], Lines(text));
    FramesOfBlocksSplit(bs);
    var tail := Chop(Rest(text));
    TailCases(text);
    if tail == "" {
      assert AllLines(text) == lines;
      FlushOfBlock(Last(bs));
    } else if Chop(tail) == "" {
      assert FramesOfBlocks(Init(bs)) + [] == FramesOfBlocks(Init(bs));
    } else {
      var line := Chop(tail);
      FieldExtends(Last(bs), line);
      BlocksGrow(lines, line);
      var grown := Init(bs) + [Last(bs) + [line]];
      assert Init(grown) == Init(bs) && Last(grown) == Last(bs) + [line];
      FramesOfBlocksSplit(grown);
      FlushOfBlock(Last(grown));
    }
  }

  lemma EmptyBlock()
    ensures PendingOf([]) == FRESH && Flush(FRESH) == []
  {}

  lemma FlushOfBlock(block: seq<string>)
    ensures Flush(PendingOf(block)) == FrameOf(block)
  {}

  lemma TailCases(text: string)
    ensures Chop(Rest(text)) != "" && Chop(Chop(Rest(text))) == "" <==> Rest(text) == "\r\r"
  {
    var s := Rest(text);
    if Chop(s) != "" && Chop(Chop(s)) == "" {
      assert s == Chop(s) + (if EndsWithCr(s) then "\r" else "");
      assert Chop(s) == "\r";
    }
  }

  /** Exactly when the parser delivers the frames of all blocks: unless the text ends in an open
      line of two carriage returns behind a block that is a frame. */
  lemma ParseMissesAFrame(text: string)
    ensures Parse(text) == FramesOfBlocks(Blocks(AllLines(text)))
       <==> Rest(text) != "\r\r" || FrameOf(Last(Blocks(Chopped(Lines(text))))) == []
  {
    hide FrameOf, Parse;
    ParseIsBlocks(text);
    if Rest(text) == "\r\r" {
      var lines := Chopped(Lines(text));
      var bs := Blocks(lines);
      TailCases(text);
      assert AllLines(text) == lines + [""];
      BlocksGrow(lines, "");
      FramesOfBlocksSplit(bs);
      FramesOfBlocksSplit(bs + [[]]);
      assert Init(bs + [[]]) == bs && Last(bs + [[]]) == [];
      EmptyFrame();
    }
  }

  lemma EmptyFrame()
    ensures FrameOf([]) == []
  {}

  /** A text for which it does not: the block `data: x` is followed by such a line. */
  lemma FrameMissed()
    ensures Parse("data: x\n\r\r") == [] && Parse("data: x\n\r") == [Frame("message", "x")]
  {
    var p := Pending("message", ["x"]);
    OneLineThenTail("\r\r");
    OneLineThenTail("\r");
    DataX();
    Returns(p);
    assert "data: x\n" + "\r\r" == "data: x\n\r\r" && "data: x\n" + "\r" == "data: x\n\r";
    hide ConsumeAll, Trailing, Lines, Rest;
  }

  lemma DataX()
    ensures ConsumeAll(FRESH, ["data: x"]) == (Pending("message", ["x"]), [])
  {
    var line := "data: x";
    assert line[0] == 'd' && line[..5] == "data:" && line[5..] == " x" && " x"[1..] == "x";
    assert FRESH.dataLines + ["x"] == ["x"];
    assert Field(FRESH, line) == Pending("message", ["x"]);
    var lines, none: seq<Frame> := [line], [];
    assert lines[1..] == [] && none + none == none;
  }

  lemma Returns(p: Pending)
    requires p == Pending("message", ["x"])
    ensures Trailing(p, "\r\r") == [] && Trailing(p, "\r") == [Frame("message", "x")]
  {
    assert Chop("\r\r") == "\r" && Chop("\r") == "";
    EmptyBlock();
  }

  lemma OneLineThenTail(tail: string)
    requires '\n' !in tail
    ensures Lines("data: x\n" + tail) == ["data: x"] && Rest("data: x\n" + tail) == tail
  {
    var s := "data: x\n" + tail;
    assert forall k :: 0 <= k < |tail| ==> tail[k] != '\n';
    FirstLfAppend("data: x", "\n" + tail);
    assert s == "data: x" + ("\n" + tail);
    assert FirstLf("data: x") == 7 && FirstLf("\n" + tail) == 0;
    assert s[..7] == "data: x" && s[8..] == tail;
  }
}
