/** The overlap pass and the entry point `chunk_document`, with the chunker's promises end to end. */
module ChunkDocument {
  import opened Text
  import opened Chunks
  import RecursiveChunks
  import ParagraphChunks
  import ParagraphOffsets

  // ----- Overlap -----

  /** `text[-n:]`. */
  function Tail(text: string, n: nat): string {
    if n < |text| then text[|text| - n..] else text
  }

  /** The tail, from just after its first space if it has one. */
  function AfterSpace(tail: string): string {
    var i := Find(tail, " ", 0);
    if i < 0 then tail else tail[i + 1..]
  }

  function Max(a: int, b: int): int {
    if a >= b then a else b
  }

  /** `c` with the end of its predecessor's text in front. */
  function Overlapped(prev: Chunk, c: Chunk, overlap: nat): Chunk {
    var window := Tail(prev.text, overlap);
    var tail := AfterSpace(window);
    Chunk(
      if tail == "" then c.text else tail + " " + c.text,
      Max(0, c.charStart - |window| - (if tail == "" then 0 else 1)),
      c.charEnd)
  }

  function OverlapSpec(chunks: seq<Chunk>, overlap: int): (result: seq<Chunk>)
    ensures |result| == |chunks|
  {
    if overlap <= 0 then chunks
    else seq(|chunks|, i requires 0 <= i < |chunks| =>
               if i == 0 then chunks[0] else Overlapped(chunks[i - 1], chunks[i], overlap))
  }

  /** The body of the overlap loop. */
  method OverlapOne(prev: Chunk, chunk: Chunk, overlap: nat) returns (merged: Chunk)
    ensures merged == Overlapped(prev, chunk, overlap)
  {
    var tail := Tail(prev.text, overlap);
    var originalTailLen := |tail|;
    var spaceIdx := Find(tail, " ", 0);
    if spaceIdx != -1 {
      tail := tail[spaceIdx + 1..];
    }
    var mergedText := if tail != "" then tail + " " + chunk.text else chunk.text;
    var start := Max(0, chunk.charStart - originalTailLen - (if |tail| != 0 then 1 else 0));
    merged := Chunk(mergedText, start, chunk.charEnd);
  }

  /** `_apply_overlap`. */
  method ApplyOverlap(chunks: seq<Chunk>, overlap: int) returns (result: seq<Chunk>)
    ensures result == OverlapSpec(chunks, overlap)
  {
    hide Overlapped;
    if overlap <= 0 || |chunks| <= 1 {
      return chunks;
    }
    result := [chunks[0]];
    for i := 1 to |chunks|
      invariant |result| == i
      invariant result[0] == chunks[0]
      invariant forall j :: 1 <= j < i ==> result[j] == Overlapped(chunks[j - 1], chunks[j], overlap)
    {
      var merged := OverlapOne(chunks[i - 1], chunks[i], overlap);
      result := result + [merged];
    }
  }

  predicate IsSuffix(t: string, s: string) {
    |t| <= |s| && s[|s| - |t|..] == t
  }

  /** What is put in front of a chunk: nothing, or a suffix of its predecessor's own text and a
      space. The suffix is as long as the window allows without starting inside a word. */
  ghost predicate Bridges(prev: Chunk, bridge: string, overlap: nat) {
    var window := Tail(prev.text, overlap);
    && IsSuffix(bridge, prev.text)
    && |bridge| <= overlap
    && if ' ' !in window then bridge == window
       else exists w :: ' ' !in w && window == w + " " + bridge
  }

  /** `d` is `c` with a bridge from its predecessor in front. */
  ghost predicate Bridged(prev: Chunk, c: Chunk, d: Chunk, overlap: nat) {
    exists bridge ::
      && Bridges(prev, bridge, overlap)
      && d.text == (if bridge == "" then c.text else bridge + " " + c.text)
      && d.charStart == Max(0, c.charStart - (if overlap < |prev.text| then overlap else |prev.text|)
                               - (if bridge == "" then 0 else 1))
  }

  lemma OverlappedMeans(prev: Chunk, c: Chunk, overlap: nat) returns (bridge: string)
    requires c.charStart >= 0
    ensures Bridges(prev, bridge, overlap)
    ensures var d := Overlapped(prev, c, overlap);
            && d.text == (if bridge == "" then c.text else bridge + " " + c.text)
            && IsSuffix(c.text, d.text)
            && |d.text| <= |c.text| + overlap + 1
            && 0 <= d.charStart <= c.charStart
            && d.charStart == Max(0, c.charStart - (if overlap < |prev.text| then overlap else |prev.text|)
                                     - (if bridge == "" then 0 else 1))
            && d.charEnd == c.charEnd
  {
    var window := Tail(prev.text, overlap);
    bridge := AfterSpace(window);
    AfterSpaceMeans(window);
    hide AfterSpace;
    assert IsSuffix(window, prev.text);
  }

  lemma AfterSpaceMeans(window: string)
    ensures var bridge := AfterSpace(window);
            && IsSuffix(bridge, window)
            && if ' ' !in window then bridge == window
               else exists w :: ' ' !in w && window == w + " " + bridge
  {
    FindSpace(window);
    hide Find;
    var i := Find(window, " ", 0);
    if i >= 0 {
      CutAt(window, i);
    }
  }

  lemma FindSpace(s: string)
    ensures var i := Find(s, " ", 0);
            if i < 0 then ' ' !in s else s[i] == ' ' && ' ' !in s[..i]
  {
    var i := Find(s, " ", 0);
    hide Find;
    forall k | 0 <= k < |s| && (i < 0 || k < i) ensures s[k] != ' ' {
      assert !At(s, " ", k);
      assert s[k..k + 1] == [s[k]];
    }
    if i >= 0 {
      assert s[i..i + 1] == [s[i]];
    }
  }

  lemma CutAt(s: string, i: nat)
    requires i < |s| && s[i] == ' '
    ensures s == s[..i] + " " + s[i + 1..] && IsSuffix(s[i + 1..], s) && ' ' in s
  {}

  /** Overlap keeps the count and every end, keeps each original text as a suffix, takes only from
      the predecessor as it was before the pass, moves starts backwards and never below zero. */
  lemma OverlapPromise(chunks: seq<Chunk>, overlap: int, size: nat)
    requires AllWithin(chunks, size)
    requires forall i :: 0 <= i < |chunks| ==> chunks[i].charStart >= 0
    ensures var result := OverlapSpec(chunks, overlap);
            && |result| == |chunks|
            && (overlap <= 0 ==> result == chunks)
            && (|chunks| > 0 ==> result[0] == chunks[0])
            && AllWithin(result, size + Max(overlap, 0) + 1)
            && forall i :: 0 <= i < |chunks| ==>
                 && result[i].charEnd == chunks[i].charEnd
                 && 0 <= result[i].charStart <= chunks[i].charStart
                 && IsSuffix(chunks[i].text, result[i].text)
                 && (overlap > 0 && i > 0 ==> Bridged(chunks[i - 1], chunks[i], result[i], overlap))
  {
    var result := OverlapSpec(chunks, overlap);
    forall i | 0 <= i < |chunks|
      ensures result[i].charEnd == chunks[i].charEnd
      ensures 0 <= result[i].charStart <= chunks[i].charStart
      ensures IsSuffix(chunks[i].text, result[i].text)
      ensures |result[i].text| <= size + Max(overlap, 0) + 1
      ensures overlap > 0 && i > 0 ==> Bridged(chunks[i - 1], chunks[i], result[i], overlap)
    {
      assert chunks[i] in chunks;
      OneOverlap(chunks, overlap, i);
      hide Bridged, OverlapSpec, IsSuffix;
    }
    hide Bridged, IsSuffix;
  }

  lemma OneOverlap(chunks: seq<Chunk>, overlap: int, i: nat)
    requires i < |chunks| && chunks[i].charStart >= 0
    ensures var (c, d) := (chunks[i], OverlapSpec(chunks, overlap)[i]);
            && d.charEnd == c.charEnd && 0 <= d.charStart <= c.charStart && IsSuffix(c.text, d.text)
            && |d.text| <= |c.text| + Max(overlap, 0) + 1
            && (overlap > 0 && i > 0 ==> Bridged(chunks[i - 1], c, d, overlap))
  {
    if overlap > 0 && i > 0 {
      OverlapIsBridged(chunks[i - 1], chunks[i], overlap);
    }
    hide Bridged, Overlapped;
  }

  lemma OverlapIsBridged(prev: Chunk, c: Chunk, overlap: nat)
    requires c.charStart >= 0
    ensures var d := Overlapped(prev, c, overlap);
            && d.charEnd == c.charEnd && 0 <= d.charStart <= c.charStart && IsSuffix(c.text, d.text)
            && |d.text| <= |c.text| + overlap + 1 && Bridged(prev, c, d, overlap)
  {
    var bridge := OverlappedMeans(prev, c, overlap);
    hide Bridges, Overlapped, IsSuffix;
  }

  // ----- The entry point -----

  function BareChunks(text: string, chunkSize: int, strategy: string): seq<Chunk>
    requires strategy != "recursive" ==> chunkSize > 0
  {
    if strategy == "recursive" then RecursiveChunks.RecursiveSpec(text, chunkSize)
    else ParagraphChunks.ParagraphSpec(text, chunkSize)
  }

  /** `chunk_document`. A chunk size of zero or less makes only the paragraph strategy fail. */
  method ChunkText(text: string, chunkSize: int, chunkOverlap: int, strategy: string) returns (chunks: seq<Chunk>)
    requires strategy != "recursive" ==> chunkSize > 0
    ensures chunks == OverlapSpec(BareChunks(text, chunkSize, strategy), chunkOverlap)
  {
    if strategy == "recursive" {
      chunks := RecursiveChunks.RecursiveChunkText(text, chunkSize);
    } else {
      chunks := ParagraphChunks.ParagraphChunkText(text, chunkSize);
    }
    chunks := ApplyOverlap(chunks, chunkOverlap);
  }

  /** The recursive strategy, in full. */
  lemma RecursivePromise(text: string, size: int)
    requires size > 0
    ensures var chunks := BareChunks(text, size, "recursive");
            && (forall i :: 0 <= i < |chunks| ==> ExactSlice(text, chunks[i]) && |chunks[i].text| <= size)
            && (forall i, j :: 0 <= i < j < |chunks| ==> chunks[i].charEnd <= chunks[j].charStart)
            && (forall k :: 0 <= k < |text| && Outside(chunks, k) ==> IsSpace(text[k]))
  {
    RecursiveChunks.RecursiveChunksTile(text, size);
    TilesExactly(text, 0, |text|, BareChunks(text, size, "recursive"));
  }

  /** Both strategies: no character that is not whitespace is lost, invented or moved. */
  lemma ContentIsKept(text: string, size: int, strategy: string)
    requires size > 0
    ensures ChunkInk(BareChunks(text, size, strategy)) == Ink(text)
  {
    if strategy == "recursive" {
      RecursiveChunks.RecursiveChunksTile(text, size);
    } else {
      ParagraphChunks.ParagraphChunksKeepInk(text, size);
    }
  }

  /** Both strategies: chunks fit, come in order without overlapping and stay inside the text. */
  lemma BarePromise(text: string, size: int, strategy: string)
    requires size > 0
    ensures AllWithin(BareChunks(text, size, strategy), size)
    ensures ParagraphOffsets.Spans(BareChunks(text, size, strategy), 0, |text|)
  {
    if strategy == "recursive" {
      RecursiveChunks.RecursiveChunksTile(text, size);
      TilesAreSpans(text, BareChunks(text, size, strategy));
    } else {
      ParagraphChunks.ParagraphChunksFit(text, size);
      ParagraphOffsets.ParagraphSpansInOrder(text, size);
    }
  }

  lemma TilesAreSpans(text: string, chunks: seq<Chunk>)
    requires Tiles(text, 0, |text|, chunks)
    ensures ParagraphOffsets.Spans(chunks, 0, |text|)
  {
    hide Tiles, IsSpace;
    TilesExactly(text, 0, |text|, chunks);
    forall i | 0 <= i < |chunks| ensures ParagraphOffsets.SpanWithin(chunks[i], 0, |text|) {
      assert ExactSlice(text, chunks[i]);
    }
  }

  lemma SpansBounds(chunks: seq<Chunk>, n: int)
    requires ParagraphOffsets.Spans(chunks, 0, n)
    ensures forall i :: 0 <= i < |chunks| ==> 0 <= chunks[i].charStart <= chunks[i].charEnd <= n
  {
    assert forall i :: 0 <= i < |chunks| ==> ParagraphOffsets.SpanWithin(chunks[i], 0, n);
  }

  /** End to end: overlap changes neither the number of chunks nor where they end, and no chunk is
      longer than the chunk size, the overlap and one space together. */
  lemma ChunkDocumentPromise(text: string, size: int, overlap: int, strategy: string)
    requires size > 0
    ensures var bare := BareChunks(text, size, strategy);
            var chunks := OverlapSpec(bare, overlap);
            && |chunks| == |bare|
            && AllWithin(chunks, size + Max(overlap, 0) + 1)
            && (overlap <= 0 ==> AllWithin(chunks, size))
            && forall i :: 0 <= i < |chunks| ==>
                 && 0 <= chunks[i].charStart <= chunks[i].charEnd <= |text|
                 && chunks[i].charEnd == bare[i].charEnd
                 && IsSuffix(bare[i].text, chunks[i].text)
  {
    hide *;
    BarePromise(text, size, strategy);
    var bare := BareChunks(text, size, strategy);
    SpansBounds(bare, |text|);
    OverlapPromise(bare, overlap, size);
  }
}
