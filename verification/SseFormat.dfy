/** What the chat stream writes: server-sent events, heartbeats and the final sentinel. */
module SseFormat {
  import opened Text

  datatype Frame = Frame(event: string, data: string)

  /** What the stream yields before its sentinel. */
  datatype Item = Heartbeat | Event(name: string, payload: string)

  /** `_sse`, and the heartbeat comment. */
  function Print(item: Item): string {
    match item
    case Heartbeat => ": heartbeat\n\n"
    case Event(name, payload) => "event: " + name + "\ndata: " + payload + "\n\n"
  }

  /** `_done_sse`. */
  const DONE := "data: [DONE]\n\n"

  function PrintAll(items: seq<Item>): string {
    if items == [] then "" else Print(items[0]) + PrintAll(items[1..])
  }

  /** The frames a reader should see. */
  function FramesOf(items: seq<Item>): seq<Frame> {
    if items == [] then []
    else (if items[0].Heartbeat? then [] else [Frame(items[0].name, items[0].payload)]) + FramesOf(items[1..])
  }

  predicate EndsWithCr(s: string) {
    s != "" && s[|s| - 1] == '\r'
  }

  /** A value that survives on one line of the stream. */
  predicate OneLine(s: string) {
    '\n' !in s && !EndsWithCr(s)
  }

  /** Names and payloads that survive the trip. JSON text of an object always does as a payload. */
  predicate Printable(item: Item) {
    item.Event? ==> OneLine(item.name) && OneLine(item.payload) && item.payload !in {"", "[DONE]"}
  }

  predicate AllPrintable(items: seq<Item>) {
    forall i :: 0 <= i < |items| ==> Printable(items[i])
  }

  lemma {:induction false} PrintAllAppend(a: seq<Item>, b: seq<Item>)
    ensures PrintAll(a + b) == PrintAll(a) + PrintAll(b)
    ensures FramesOf(a + b) == FramesOf(a) + FramesOf(b)
  {
    if a == [] {
      assert a + b == b;
    } else {
      assert (a + b)[1..] == a[1..] + b;
      PrintAllAppend(a[1..], b);
    }
  }
}
