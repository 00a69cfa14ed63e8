/** The chat stream read back by the SDK parser. */
module SseRoundTrip {
  import opened Text
  import opened SseFormat
  import opened SseSdkParser

  /** One line of the stream, read off the front. */
  lemma LineThen(line: string, more: string)
    requires OneLine(line)
    ensures Lines(line + "\n" + more) == [line] + Lines(more)
    ensures Rest(line + "\n" + more) == Rest(more)
  {
    var s := line + "\n" + more;
    assert s == line + ("\n" + more);
    assert forall k :: 0 <= k < |line| ==> line[k] != '\n';
    FirstLfAppend(line, "\n" + more);
    assert FirstLf("\n" + more) == 0;
    assert s[..|line|] == line && s[|line| + 1..] == more;
  }

  /** The lines of a printed item. */
  function ItemLines(item: Item): seq<string> {
    match item
    case Heartbeat => [": heartbeat", ""]
    case Event(name, payload) => ["event: " + name, "data: " + payload, ""]
  }

  lemma PrefixedLine(prefix: string, s: string)
    requires OneLine(s) && OneLine(prefix) && prefix != "" 
    ensures OneLine(prefix + s)
  {
    var t := prefix + s;
    assert t[|t| - 1] == if s == "" then prefix[|prefix| - 1] else s[|s| - 1];
  }

  lemma LinesOfItem(item: Item, more: string)
    requires Printable(item)
    ensures Lines(Print(item) + more) == ItemLines(item) + Lines(more)
    ensures Rest(Print(item) + more) == Rest(more)
  {
    hide Lines, Rest, EndsWithCr;
    assert OneLine("") && OneLine(": heartbeat") && OneLine("event: ") && OneLine("data: ") by { Literals(); }
    match item
    case Heartbeat =>
      assert Print(item) + more == ": heartbeat" + "\n" + ("" + "\n" + more);
      LineThen(": heartbeat", "" + "\n" + more);
      LineThen("", more);
      assert [": heartbeat"] + ([""] + Lines(more)) == ItemLines(item) + Lines(more);
    case Event(name, payload) =>
      var e, d := "event: " + name, "data: " + payload;
      PrefixedLine("event: ", name);
      PrefixedLine("data: ", payload);
      assert Print(item) + more == e + "\n" + (d + "\n" + ("" + "\n" + more));
      LineThen(e, d + "\n" + ("" + "\n" + more));
      LineThen(d, "" + "\n" + more);
      LineThen("", more);
      assert [e] + ([d] + ([""] + Lines(more))) == ItemLines(item) + Lines(more);
  }

  lemma Literals()
    ensures OneLine("") && OneLine(": heartbeat") && OneLine("event: ") && OneLine("data: ")
  {}

  /** From a fresh state a printed item yields its frame and leaves a fresh state. */
  lemma ItemConsumed(item: Item)
    requires Printable(item)
    ensures ConsumeAll(FRESH, ItemLines(item)) == (FRESH, FramesOf([item]))
  {
    hide Consume, Flush;
    EmptyBlock();
    assert FramesOf([item][1..]) == [];
    match item
    case Heartbeat =>
      HeartbeatLine();
      ClosedBy(FRESH, ": heartbeat", FRESH);
    case Event(name, payload) =>
      EventLine(name);
      DataLine(Pending(name, []), payload);
      ClosedBy(Pending(name, []), "data: " + payload, Pending(name, [payload]));
      FlushOne(name, payload);
      assert ItemLines(item)[1..] == ["data: " + payload, ""];
      var frames := ConsumeAll(Pending(name, []), ["data: " + payload, ""]).1;
      assert [] + frames == frames;
      assert FramesOf([item]) == [Frame(name, payload)] + [] == [Frame(name, payload)];
  }

  /** A silent line and then the blank line. */
  lemma ClosedBy(p: Pending, line: string, q: Pending)
    requires Consume(p, line) == (q, [])
    ensures ConsumeAll(p, [line, ""]) == (FRESH, Flush(q))
  {
    hide Flush;
    BlankLine(q);
    assert [line, ""][1..] == [""];
    assert [] + Flush(q) == Flush(q);
  }

  lemma HeartbeatLine()
    ensures Consume(FRESH, ": heartbeat") == (FRESH, [])
  {
    assert ": heartbeat"[..1] == ":";
  }

  lemma BlankLine(p: Pending)
    ensures ConsumeAll(p, [""]) == (FRESH, Flush(p))
  {
    assert [""][1..] == [];
    assert Flush(p) + [] == Flush(p);
  }

  lemma FlushOne(name: string, payload: string)
    requires payload !in {"", "[DONE]"}
    ensures Flush(Pending(name, [payload])) == [Frame(name, payload)]
  {}

  lemma EventLine(name: string)
    requires OneLine(name)
    ensures Consume(FRESH, "event: " + name) == (Pending(name, []), [])
  {
    var line := "event: " + name;
    Literals();
    PrefixedLine("event: ", name);
    assert line[0] == 'e' && line[..6] == "event:" && line[6..] == " " + name;
    assert (" " + name)[1..] == name;
  }

  lemma DataLine(p: Pending, payload: string)
    requires OneLine(payload) && p.dataLines == []
    ensures Consume(p, "data: " + payload) == (p.(dataLines := [payload]), [])
  {
    var line := "data: " + payload;
    Literals();
    PrefixedLine("data: ", payload);
    assert line[0] == 'd' && line[..5] == "data:" && line[5..] == " " + payload;
    assert (" " + payload)[1..] == payload;
    assert p.dataLines + [payload] == [payload];
  }

  lemma {:induction false} ItemsConsumed(items: seq<Item>, more: string)
    requires AllPrintable(items)
    ensures var (p, frames) := ConsumeAll(FRESH, Lines(more));
            ConsumeAll(FRESH, Lines(PrintAll(items) + more)) == (p, FramesOf(items) + frames)
    ensures Rest(PrintAll(items) + more) == Rest(more)
    decreases |items|
  {
    hide Print, Lines, Rest, ConsumeAll, ItemLines;
    if items == [] {
      assert PrintAll(items) + more == more;
      var frames := ConsumeAll(FRESH, Lines(more)).1;
      assert FramesOf(items) + frames == frames;
    } else {
      var item, rest := items[0], items[1..];
      assert Printable(item);
      assert PrintAll(items) + more == Print(item) + (PrintAll(rest) + more);
      LinesOfItem(item, PrintAll(rest) + more);
      ItemConsumed(item);
      ItemsConsumed(rest, more);
      ConsumeAllAppend(FRESH, ItemLines(item), Lines(PrintAll(rest) + more));
      FramesOfOne(item, rest, items);
      var frames := ConsumeAll(FRESH, Lines(more)).1;
      assert FramesOf([item]) + (FramesOf(rest) + frames) == FramesOf(items) + frames;
    }
  }

  lemma FramesOfOne(item: Item, rest: seq<Item>, items: seq<Item>)
    requires items == [item] + rest
    ensures FramesOf(items) == FramesOf([item]) + FramesOf(rest)
  {
    PrintAllAppend([item], rest);
  }

  /** A finished stream: whatever the chunks, with heartbeats anywhere between events, the SDK
      reads back exactly the events, in order. */
  lemma StreamRoundTrip(items: seq<Item>)
    requires AllPrintable(items)
    ensures Parse(PrintAll(items) + DONE) == FramesOf(items)
  {
    ItemsConsumed(items, DONE);
    DoneIsSilent();
    assert FramesOf(items) + [] == FramesOf(items);
  }

  lemma DoneIsSilent()
    ensures ConsumeAll(FRESH, Lines(DONE)) == (FRESH, []) && Rest(DONE) == "" && Trailing(FRESH, "") == []
  {
    DoneLines();
    SentinelLine();
    FlushDone();
    EmptyBlock();
    hide Consume, Flush;
    ClosedBy(FRESH, "data: [DONE]", Pending("message", ["[DONE]"]));
  }

  lemma SentinelLine()
    ensures Consume(FRESH, "data: [DONE]") == (Pending("message", ["[DONE]"]), [])
  {
    hide Consume;
    DataLine(FRESH, "[DONE]");
    assert "data: " + "[DONE]" == "data: [DONE]";
  }

  lemma DoneLines()
    ensures Lines(DONE) == ["data: [DONE]", ""] && Rest(DONE) == ""
  {
    Literals();
    PrefixedLine("data: ", "[DONE]");
    assert "data: " + "[DONE]" == "data: [DONE]";
    assert DONE == "data: [DONE]" + "\n" + ("" + "\n" + "");
    hide OneLine;
    LineThen("data: [DONE]", "" + "\n" + "");
    LineThen("", "");
  }

  lemma FlushDone()
    ensures Flush(Pending("message", ["[DONE]"])) == []
  {}

  /** A stream cut off after any number of characters: the frames yielded before the cut are a
      prefix of the events. */
  lemma CutStream(items: seq<Item>, read: string, lost: string)
    requires AllPrintable(items) && read + lost == PrintAll(items) + DONE
    ensures ConsumeAll(FRESH, Lines(read)).1 <= FramesOf(items)
  {
    YieldedFramesStay(read, lost);
    ItemsConsumed(items, DONE);
    DoneIsSilent();
  }
}
