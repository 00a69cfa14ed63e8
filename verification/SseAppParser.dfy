/** The web app's reader of the chat stream, `streamChat` and `parseFrame`. */
module SseAppParser {
  import opened Text
  import opened SseFormat

  // ----- One frame -----

  datatype Parsed = Nothing | Done | Delivered(frame: Frame)

  /** The characters JavaScript's `trim` removes. */
  predicate JsSpace(c: char) {
    var n := c as int;
    || 9 <= n <= 13 || n == 32 || n == 0xA0 || n == 0x1680 || 0x2000 <= n <= 0x200A
    || n == 0x2028 || n == 0x2029 || n == 0x202F || n == 0x205F || n == 0x3000 || n == 0xFEFF
  }

  function TrimStart(s: string): string {
    if s != "" && JsSpace(s[0]) then TrimStart(s[1..]) else s
  }

  function TrimEnd(s: string): string {
    if s != "" && JsSpace(s[|s| - 1]) then TrimEnd(s[..|s| - 1]) else s
  }

  function Trim(s: string): string {
    TrimEnd(TrimStart(s))
  }

  predicate StartsWith(s: string, prefix: string) {
    |prefix| <= |s| && s[..|prefix|] == prefix
  }

  /** The event name and data lines read so far. */
  datatype Fields = Fields(eventName: string, data: seq<string>)

  function ReadLine(f: Fields, line: string): Fields {
    if StartsWith(line, "event: ") then f.(eventName := Trim(line[7..]))
    else if StartsWith(line, "data: ") then f.(data := f.data + [line[6..]])
    else f
  }

  function ReadLines(f: Fields, lines: seq<string>): Fields
    decreases |lines|
  {
    if lines == [] then f else ReadLines(ReadLine(f, lines[0]), lines[1..])
  }

  /** `json` tells which payloads `JSON.parse` accepts; an event carries the payload it parsed. */
  function Classify(f: Fields, json: string -> bool): Parsed {
    var payload := Join(f.data, "\n");
    if payload == "" then Nothing
    else if payload == "[DONE]" then Done
    else if json(payload) then Delivered(Frame(f.eventName, payload))
    else Nothing
  }

  function FrameSpec(frame: string, json: string -> bool): Parsed {
    Classify(ReadLines(Fields("message", []), Split(frame, "\n")), json)
  }

  /** `parseFrame`. */
  method ParseFrame(frame: string, json: string -> bool) returns (parsed: Parsed)
    ensures parsed == FrameSpec(frame, json)
  {
    var eventName, data := "message", [];
    var lines := Split(frame, "\n");
    assert lines[0..] == lines;
    for i := 0 to |lines|
      invariant ReadLines(Fields(eventName, data), lines[i..]) == ReadLines(Fields("message", []), lines)
    {
      var line := lines[i];
      assert lines[i..][0] == line && lines[i..][1..] == lines[i + 1..];
      if StartsWith(line, "event: ") {
        eventName := Trim(line[7..]);
      } else if StartsWith(line, "data: ") {
        data := data + [line[6..]];
      }
    }
    assert lines[|lines|..] == [];
    var payload := Join(data, "\n");
    if payload == "" {
      return Nothing;
    }
    if payload == "[DONE]" {
      return Done;
    }
    if json(payload) {
      return Delivered(Frame(eventName, payload));
    }
    return Nothing;
  }

  /** The value of the last `event: ` line, and the values of all `data: ` lines. */
  function NameIn(lines: seq<string>): string {
    if lines == [] then "message"
    else
      var line := lines[|lines| - 1];
      if StartsWith(line, "event: ") then Trim(line[7..]) else NameIn(lines[..|lines| - 1])
  }

  function DataIn(lines: seq<string>): seq<string> {
    if lines == [] then []
    else
      var line := lines[|lines| - 1];
      if StartsWith(line, "data: ") then DataIn(lines[..|lines| - 1]) + [line[6..]] else DataIn(lines[..|lines| - 1])
  }

  lemma {:induction false} LinesInOrder(f: Fields, a: seq<string>, b: seq<string>)
    ensures ReadLines(f, a + b) == ReadLines(ReadLines(f, a), b)
    decreases |a|
  {
    hide ReadLine;
    if a == [] {
      assert a + b == b;
    } else {
      assert (a + b)[1..] == a[1..] + b;
      LinesInOrder(ReadLine(f, a[0]), a[1..], b);
    }
  }

  lemma {:induction false} FieldsAre(lines: seq<string>)
    ensures ReadLines(Fields("message", []), lines) == Fields(NameIn(lines), DataIn(lines))
  {
    if lines != [] {
      var front, line := lines[..|lines| - 1], lines[|lines| - 1];
      FieldsAre(front);
      assert lines == front + [line];
      LinesInOrder(Fields("message", []), front, [line]);
      OneLineMore(Fields(NameIn(front), DataIn(front)), line);
      NotBoth(line);
      hide Trim, StartsWith, ReadLines;
    }
  }

  lemma OneLineMore(f: Fields, line: string)
    ensures ReadLines(f, [line]) == ReadLine(f, line)
  {
    hide ReadLine;
    assert [line][1..] == [];
  }

  lemma NotBoth(line: string)
    ensures !(StartsWith(line, "event: ") && StartsWith(line, "data: "))
  {
    FirstOf(line, "event: ");
    FirstOf(line, "data: ");
  }

  lemma FirstOf(line: string, prefix: string)
    requires prefix != ""
    ensures StartsWith(line, prefix) ==> line != "" && line[0] == prefix[0]
  {
    assert StartsWith(line, prefix) ==> line[0] == line[..|prefix|][0];
  }

  /** What a frame is: nothing without a payload; the end, if the payload is the sentinel; an event under the last name
      given, with the data lines joined by line feeds, if the payload is JSON; and nothing otherwise. */
  lemma FrameMeans(frame: string, json: string -> bool)
    ensures var lines := Split(frame, "\n");
            var payload := Join(DataIn(lines), "\n");
            && (payload == "" ==> FrameSpec(frame, json) == Nothing)
            && (payload == "[DONE]" ==> FrameSpec(frame, json) == Done)
            && (payload !in {"", "[DONE]"} && json(payload) ==>
                  FrameSpec(frame, json) == Delivered(Frame(NameIn(lines), payload)))
            && (payload !in {"", "[DONE]"} && !json(payload) ==> FrameSpec(frame, json) == Nothing)
  {
    FieldsAre(Split(frame, "\n"));
    hide Split, Join, NameIn, DataIn, ReadLines;
  }

  // ----- The stream -----

  function Deliveries(parts: seq<string>, json: string -> bool): seq<Frame> {
    if parts == [] then []
    else
      var p := FrameSpec(parts[0], json);
      (if p.Delivered? then [p.frame] else []) + Deliveries(parts[1..], json)
  }

  predicate HasDone(parts: seq<string>, json: string -> bool) {
    exists i :: 0 <= i < |parts| && FrameSpec(parts[i], json) == Done
  }

  /** Nothing follows the sentinel: no complete frame and no open text. */
  predicate DoneIsLast(text: string, json: string -> bool) {
    var parts := Complete(text, "\n\n");
    && !HasDone(parts[..if parts == [] then 0 else |parts| - 1], json)
    && (HasDone(parts, json) ==> Open(text, "\n\n") == "")
  }

  /** The whole text at once: split it at blank lines and read every part. */
  function ReadText(text: string, json: string -> bool): seq<Frame> {
    var parts, open := Complete(text, "\n\n"), Open(text, "\n\n");
    Deliveries(parts, json)
    + if HasDone(parts, json) || Trim(open) == "" then [] else Deliveries([open], json)
  }

  /** The loop over the frames completed by one chunk. */
  method Deliver(frames: seq<string>, json: string -> bool) returns (events: seq<Frame>, finished: bool)
    ensures events == Deliveries(frames, json)
    ensures finished == HasDone(frames, json)
  {
    events, finished := [], false;
    var i := 0;
    assert frames[0..] == frames;
    assert !HasDone([], json) && frames[..0] == [];
    hide FrameSpec, Deliveries, HasDone;
    while i < |frames|
      invariant 0 <= i <= |frames|
      invariant events + Deliveries(frames[i..], json) == Deliveries(frames, json)
      invariant finished == HasDone(frames[..i], json)
    {
      var parsed := ParseFrame(frames[i], json);
      DeliverOne(frames, i, events, json);
      HasDoneGrows(frames, i, json);
      if parsed.Done? {
        finished := true;
      } else if parsed.Delivered? {
        events := events + [parsed.frame];
      }
      i := i + 1;
    }
    assert frames[..|frames|] == frames;
    DeliverNone(events, json);
    assert frames[i..] == [];
  }

  lemma DeliverOne(frames: seq<string>, i: nat, events: seq<Frame>, json: string -> bool)
    requires i < |frames|
    ensures var parsed := FrameSpec(frames[i], json);
            events + Deliveries(frames[i..], json)
            == (if parsed.Delivered? then events + [parsed.frame] else events) + Deliveries(frames[i + 1..], json)
  {
    hide FrameSpec;
    assert frames[i..][0] == frames[i] && frames[i..][1..] == frames[i + 1..];
  }

  lemma DeliverNone(events: seq<Frame>, json: string -> bool)
    ensures events + Deliveries([], json) == events
  {}

  lemma HasDoneGrows(frames: seq<string>, i: nat, json: string -> bool)
    requires i < |frames|
    ensures HasDone(frames[..i + 1], json) <==> HasDone(frames[..i], json) || FrameSpec(frames[i], json) == Done
  {
    hide FrameSpec;
    var a, b := frames[..i], frames[..i + 1];
    assert forall k :: 0 <= k < i ==> a[k] == b[k];
    assert b[i] == frames[i];
  }

  /** How many chunks are read: up to the first that completes the sentinel, that one included. */
  function ChunksRead(chunks: seq<string>, from: nat, json: string -> bool): (n: nat)
    requires from <= |chunks|
    ensures from <= n <= |chunks|
    ensures n < |chunks| ==> HasDone(Complete(Concat(chunks[..n]), "\n\n"), json)
    ensures forall k :: from <= k < n ==> !HasDone(Complete(Concat(chunks[..k]), "\n\n"), json)
    decreases |chunks| - from
  {
    if from == |chunks| || HasDone(Complete(Concat(chunks[..from]), "\n\n"), json) then from
    else ChunksRead(chunks, from + 1, json)
  }

  /** `streamChat`, from the first chunk on. Chunks are what the text decoder returns; once the
      sentinel has been seen no further chunk is read, and no open text. When nothing follows the sentinel,
      how the text was cut into chunks makes no difference. */
  method StreamChat(chunks: seq<string>, json: string -> bool) returns (events: seq<Frame>)
    ensures events == ReadText(Concat(chunks[..ChunksRead(chunks, 0, json)]), json)
    ensures DoneIsLast(Concat(chunks), json) ==> events == ReadText(Concat(chunks), json)
  {
    hide FrameSpec, Complete, Open, Trim, HasDone, Deliveries, DoneIsLast;
    events := [];
    var buffer, finished := "", false;
    ghost var read := "";
    var i := 0;
    NothingRead(json);
    assert chunks[..0] == [] && Concat([]) == "";
    while i < |chunks| && !finished
      invariant 0 <= i <= |chunks| && read == Concat(chunks[..i])
      invariant ChunksRead(chunks, i, json) == ChunksRead(chunks, 0, json)
      invariant events == Deliveries(Complete(read, "\n\n"), json)
      invariant finished == HasDone(Complete(read, "\n\n"), json)
      invariant buffer == Open(read, "\n\n")
    {
      buffer := buffer + chunks[i];
      var frames := Complete(buffer, "\n\n");
      buffer := Open(buffer, "\n\n");
      var more, done := Deliver(frames, json);
      events := events + more;
      finished := done;
      StreamStep(read, chunks[i], json);
      ConcatUpTo(chunks, i);
      read := read + chunks[i];
      i := i + 1;
    }
    assert ChunksRead(chunks, 0, json) == i;
    ghost var complete := events;
    if !finished && Trim(buffer) != "" {
      var parsed := ParseFrame(buffer, json);
      if parsed.Delivered? {
        events := events + [parsed.frame];
      }
    }
    OpenText(read, complete, events, json);
    WhateverTheCut(chunks, i, json);
  }

  lemma OpenText(read: string, complete: seq<Frame>, events: seq<Frame>, json: string -> bool)
    requires complete == Deliveries(Complete(read, "\n\n"), json)
    requires var open := Open(read, "\n\n");
             var parsed := FrameSpec(open, json);
             events == if !HasDone(Complete(read, "\n\n"), json) && Trim(open) != "" && parsed.Delivered?
                       then complete + [parsed.frame] else complete
    ensures events == ReadText(read, json)
  {
    OneDelivery(Open(read, "\n\n"), json);
    assert complete + [] == complete;
    hide FrameSpec, Complete, Open, Trim, HasDone, Deliveries;
  }

  lemma OneDelivery(part: string, json: string -> bool)
    ensures var parsed := FrameSpec(part, json);
            Deliveries([part], json) == if parsed.Delivered? then [parsed.frame] else []
  {
    hide FrameSpec;
    assert [part][1..] == [];
    assert Deliveries([], json) == [];
  }

  lemma WhateverTheCut(chunks: seq<string>, i: nat, json: string -> bool)
    requires i <= |chunks|
    requires i < |chunks| ==> HasDone(Complete(Concat(chunks[..i]), "\n\n"), json)
    ensures DoneIsLast(Concat(chunks), json) ==> ReadText(Concat(chunks[..i]), json) == ReadText(Concat(chunks), json)
  {
    hide FrameSpec, Complete, Open, Trim, HasDone, DoneIsLast;
    if i == |chunks| {
      assert chunks[..i] == chunks;
    } else if DoneIsLast(Concat(chunks), json) {
      var read := Concat(chunks[..i]);
      ConcatRest(chunks, i);
      FinishedEarly(read, Concat(chunks[i..]), json);
      assert Deliveries(Complete(read, "\n\n"), json) + [] == Deliveries(Complete(read, "\n\n"), json);
    }
  }

  lemma NothingRead(json: string -> bool)
    ensures Complete("", "\n\n") == [] && Open("", "\n\n") == ""
    ensures Deliveries([], json) == [] && !HasDone([], json)
  {}

  lemma ConcatUpTo(chunks: seq<string>, i: nat)
    requires i < |chunks|
    ensures Concat(chunks[..i + 1]) == Concat(chunks[..i]) + chunks[i]
  {
    assert chunks[..i + 1] == chunks[..i] + [chunks[i]];
    ConcatAppend(chunks[..i], [chunks[i]]);
    assert Concat([chunks[i]]) == chunks[i] + Concat([]) == chunks[i];
  }

  lemma ConcatRest(chunks: seq<string>, i: nat)
    requires i <= |chunks|
    ensures Concat(chunks) == Concat(chunks[..i]) + Concat(chunks[i..])
  {
    assert chunks == chunks[..i] + chunks[i..];
    ConcatAppend(chunks[..i], chunks[i..]);
  }

  lemma {:induction false} DeliveriesAppend(a: seq<string>, b: seq<string>, json: string -> bool)
    ensures Deliveries(a + b, json) == Deliveries(a, json) + Deliveries(b, json)
    ensures HasDone(a + b, json) <==> HasDone(a, json) || HasDone(b, json)
  {
    hide FrameSpec;
    if a == [] {
      assert a + b == b;
    } else {
      assert (a + b)[1..] == a[1..] + b;
      DeliveriesAppend(a[1..], b, json);
    }
    HasDoneAppend(a, b, json);
  }

  lemma HasDoneAppend(a: seq<string>, b: seq<string>, json: string -> bool)
    ensures HasDone(a + b, json) <==> HasDone(a, json) || HasDone(b, json)
  {
    hide FrameSpec;
    var c := a + b;
    assert forall k :: 0 <= k < |a| ==> c[k] == a[k];
    assert forall k :: 0 <= k < |b| ==> b[k] == c[|a| + k];
    assert forall k :: |a| <= k < |c| ==> c[k] == b[k - |a|];
  }

  lemma StreamStep(read: string, chunk: string, json: string -> bool)
    ensures var past, more := Complete(read, "\n\n"), Complete(Open(read, "\n\n") + chunk, "\n\n");
            var now := Complete(read + chunk, "\n\n");
            && Open(read + chunk, "\n\n") == Open(Open(read, "\n\n") + chunk, "\n\n")
            && now == past + more
            && Deliveries(now, json) == Deliveries(past, json) + Deliveries(more, json)
            && (HasDone(now, json) <==> HasDone(past, json) || HasDone(more, json))
  {
    hide FrameSpec, Complete, Open;
    CompleteAppend(read, chunk, "\n\n");
    OpenAppend(read, chunk, "\n\n");
    DeliveriesAppend(Complete(read, "\n\n"), Complete(Open(read, "\n\n") + chunk, "\n\n"), json);
  }

  /** When the sentinel has been read, what was not read holds nothing. */
  lemma FinishedEarly(read: string, unread: string, json: string -> bool)
    requires DoneIsLast(read + unread, json) && HasDone(Complete(read, "\n\n"), json)
    ensures ReadText(read + unread, json) == Deliveries(Complete(read, "\n\n"), json)
  {
    hide FrameSpec, Complete, Open, Trim, Deliveries, HasDone;
    StreamStep(read, unread, json);
    var past, more := Complete(read, "\n\n"), Complete(Open(read, "\n\n") + unread, "\n\n");
    var parts := past + more;
    if more == [] {
      assert parts == past;
    } else {
      assert parts[..|parts| - 1] == past + more[..|more| - 1];
      HasDoneAppend(past, more[..|more| - 1], json);
      assert false;
    }
  }

  // ----- The printed stream -----

  /** Names without outer whitespace, payloads that are JSON text. */
  predicate AppReadable(items: seq<Item>, json: string -> bool) {
    && AllPrintable(items)
    && forall i :: 0 <= i < |items| && items[i].Event? ==> Trim(items[i].name) == items[i].name && json(items[i].payload)
  }

  /** The text of an item without its closing blank line. */
  function Body(item: Item): string {
    match item
    case Heartbeat => ": heartbeat"
    case Event(name, payload) => "event: " + name + "\ndata: " + payload
  }

  /** The blank line that ends an item is the first one in it. */
  lemma BodyThenBlank(item: Item, more: string)
    requires Printable(item)
    ensures Complete(Print(item) + more, "\n\n") == [Body(item)] + Complete(more, "\n\n")
    ensures Open(Print(item) + more, "\n\n") == Open(more, "\n\n")
  {
    BodyShape(item);
    PrintIsBody(item);
    hide *;
    SplitAtGap(Body(item), more);
    Regroup(Body(item), "\n\n", more);
  }

  lemma PrintIsBody(item: Item)
    ensures Print(item) == Body(item) + "\n\n"
  {}

  lemma Regroup(a: string, b: string, c: string)
    ensures a + b + c == a + (b + c)
  {}

  lemma SplitAtGap(body: string, more: string)
    requires NoGap(body)
    ensures Complete(body + ("\n\n" + more), "\n\n") == [body] + Complete(more, "\n\n")
    ensures Open(body + ("\n\n" + more), "\n\n") == Open(more, "\n\n")
  {
    hide NoGap, Find;
    var s := body + ("\n\n" + more);
    FirstGap(body, more);
    assert s[..|body|] == body && s[|body| + 2..] == more;
  }

  /** Every line feed in a body stands before an ordinary character. */
  predicate NoGap(body: string) {
    forall k :: 0 <= k < |body| && body[k] == '\n' ==> k + 1 < |body| && body[k + 1] != '\n'
  }

  lemma FirstGap(body: string, more: string)
    requires NoGap(body)
    ensures Find(body + ("\n\n" + more), "\n\n", 0) == |body|
  {
    hide Find;
    var s := body + ("\n\n" + more);
    assert s[|body|..|body| + 2] == "\n\n";
    assert At(s, "\n\n", |body|);
    forall k | 0 <= k < |body| ensures !At(s, "\n\n", k) {
      NoGapAt(body, "\n\n" + more, k);
    }
    hide At, NoGap;
  }

  lemma NoGapAt(body: string, tail: string, k: nat)
    requires NoGap(body) && k < |body|
    ensures !At(body + tail, "\n\n", k)
  {
    var s := body + tail;
    assert s[k] == body[k];
    assert k + 1 < |body| ==> s[k + 1] == body[k + 1];
    assert k + 2 <= |s| ==> s[k..k + 2] == [s[k], s[k + 1]];
  }

  lemma BodyShape(item: Item)
    requires Printable(item)
    ensures NoGap(Body(item))
  {
    var body := Body(item);
    if item.Event? {
      var n := 7 + |item.name|;
      assert body == "event: " + item.name + ("\ndata: " + item.payload);
      forall k | 0 <= k < |body| ensures body[k] == '\n' ==> k == n {
        assert body[k] == if k < 7 then "event: "[k]
                          else if k < n then item.name[k - 7]
                          else if k < n + 7 then "\ndata: "[k - n]
                          else item.payload[k - n - 7];
      }
      assert body[n + 1] == 'd';
    }
  }

  /** What the app makes of one item. */
  lemma BodyParsed(item: Item, json: string -> bool)
    requires Printable(item)
    requires item.Event? ==> Trim(item.name) == item.name && json(item.payload)
    ensures FrameSpec(Body(item), json) == if item.Heartbeat? then Nothing else Delivered(Frame(item.name, item.payload))
  {
    match item
    case Heartbeat =>
      OneLineSplit(": heartbeat");
      assert [": heartbeat"][1..] == [];
    case Event(name, payload) =>
      var e, d := "event: " + name, "data: " + payload;
      assert Body(item) == e + "\n" + d;
      TwoLineSplit(e, d);
      ReadsEvent(Fields("message", []), name);
      ReadsData(Fields(name, []), payload);
      ReadTwo(Fields("message", []), e, d);
  }

  lemma ReadTwo(f: Fields, a: string, b: string)
    ensures ReadLines(f, [a, b]) == ReadLine(ReadLine(f, a), b)
  {
    hide ReadLine;
    var lines := [a, b];
    assert lines[1..] == [b] && lines[1..][1..] == [];
    assert ReadLines(ReadLine(f, a), [b]) == ReadLines(ReadLine(ReadLine(f, a), b), []);
  }

  lemma ReadsEvent(f: Fields, name: string)
    requires Trim(name) == name
    ensures ReadLine(f, "event: " + name) == f.(eventName := name)
  {
    var e := "event: " + name;
    assert e[..7] == "event: " && e[7..] == name;
  }

  lemma OneLineSplit(a: string)
    requires '\n' !in a
    ensures Split(a, "\n") == [a]
  {
    forall k | 0 <= k < |a| ensures !At(a, "\n", k) {
      assert a[k..k + 1] == [a[k]];
    }
  }

  lemma TwoLineSplit(a: string, b: string)
    requires '\n' !in a && '\n' !in b
    ensures Split(a + "\n" + b, "\n") == [a, b]
  {
    var s := a + "\n" + b;
    forall k | 0 <= k < |a| ensures !At(s, "\n", k) {
      assert s[k..k + 1] == [a[k]];
    }
    assert s[|a|..|a| + 1] == "\n";
    assert At(s, "\n", |a|);
    assert s[..|a|] == a && s[|a| + 1..] == b;
    OneLineSplit(b);
  }

  lemma SentinelParsed(json: string -> bool)
    ensures FrameSpec("data: [DONE]", json) == Done
  {
    OneData("[DONE]", json);
    assert "data: " + "[DONE]" == "data: [DONE]";
  }

  lemma OneData(payload: string, json: string -> bool)
    requires '\n' !in payload && payload != ""
    ensures FrameSpec("data: " + payload, json) == Classify(Fields("message", [payload]), json)
  {
    var body := "data: " + payload;
    OneLineSplit(body);
    ReadsData(Fields("message", []), payload);
    hide Split, ReadLine, Classify;
    var f := Fields("message", [payload]);
    assert ReadLines(Fields("message", []), [body]) == ReadLines(f, [body][1..]) == f;
  }

  lemma ReadsData(f: Fields, payload: string)
    requires f.data == []
    ensures ReadLine(f, "data: " + payload) == f.(data := [payload])
  {
    var d := "data: " + payload;
    assert d[..6] == "data: " && d[6..] == payload && d[0] == 'd';
    assert !StartsWith(d, "event: ") by { assert d[0] != "event: "[0]; }
    assert f.data + [payload] == [payload];
  }

  lemma SentinelSplit()
    ensures Complete(DONE, "\n\n") == ["data: [DONE]"] && Open(DONE, "\n\n") == ""
  {
    var body := "data: [DONE]";
    assert DONE == body + ("\n\n" + "");
    FirstGap(body, "");
    hide Find;
    assert DONE[..12] == body && DONE[14..] == "";
  }

  lemma {:induction false} ItemsRead(items: seq<Item>, json: string -> bool)
    requires AppReadable(items, json)
    ensures var parts := Complete(PrintAll(items) + DONE, "\n\n");
            && |parts| == |items| + 1
            && Deliveries(parts, json) == FramesOf(items)
            && !HasDone(parts[..|items|], json)
            && HasDone(parts, json)
    ensures Open(PrintAll(items) + DONE, "\n\n") == ""
  {
    hide FrameSpec, Complete, Open, Print, Trim, EndsWithCr;
    SentinelParsed(json);
    SentinelSplit();
    var parts := Complete(PrintAll(items) + DONE, "\n\n");
    if items == [] {
      assert PrintAll(items) + DONE == DONE;
      assert parts[1..] == [];
    } else {
      var item, rest := items[0], items[1..];
      assert Printable(item);
      assert PrintAll(items) + DONE == Print(item) + (PrintAll(rest) + DONE);
      BodyThenBlank(item, PrintAll(rest) + DONE);
      BodyParsed(item, json);
      ItemsRead(rest, json);
      var more := Complete(PrintAll(rest) + DONE, "\n\n");
      assert parts == [Body(item)] + more && parts[1..] == more;
      assert parts[..|items|] == [Body(item)] + more[..|rest|];
      HasDoneAppend([Body(item)], more[..|rest|], json);
      HasDoneAppend([Body(item)], more, json);
    }
  }

  /** A finished stream: whatever the chunks, the app delivers exactly the events, in order. */
  lemma StreamRead(items: seq<Item>, json: string -> bool)
    requires AppReadable(items, json)
    ensures var text := PrintAll(items) + DONE;
            DoneIsLast(text, json) && ReadText(text, json) == FramesOf(items)
  {
    ItemsRead(items, json);
    var frames := FramesOf(items);
    assert frames + [] == frames;
  }
}
