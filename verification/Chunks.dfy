/** The chunk record shared by both chunking strategies, and what it means for
    chunks to tile a text. */
module Chunks {
  import opened Text

  datatype Chunk = Chunk(text: string, charStart: int, charEnd: int)

  /** `_stripped_chunk`: strip a segment that starts at `start`, moving the offsets inwards. */
  function StrippedChunk(segment: string, start: int): (c: Chunk)
    ensures c.charEnd - c.charStart == |c.text| && c.charStart >= start
  {
    var text := Strip(segment);
    Chunk(text, start + Lead(segment), start + Lead(segment) + |text|)
  }

  /** `_flush_chunk`: the stripped segment as one chunk, or no chunk when it is blank. */
  function FlushChunk(current: string, start: int): seq<Chunk> {
    if Strip(current) == "" then [] else [StrippedChunk(current, start)]
  }

  function Texts(chunks: seq<Chunk>): seq<string> {
    seq(|chunks|, i requires 0 <= i < |chunks| => chunks[i].text)
  }

  /** The non-whitespace characters of all chunk texts, concatenated in order. */
  function ChunkInk(chunks: seq<Chunk>): string {
    Ink(Concat(Texts(chunks)))
  }

  predicate AllWithin(chunks: seq<Chunk>, size: int) {
    forall c :: c in chunks ==> |c.text| <= size
  }

  lemma ChunkInkAppend(a: seq<Chunk>, b: seq<Chunk>)
    ensures ChunkInk(a + b) == ChunkInk(a) + ChunkInk(b)
  {
    assert Texts(a + b) == Texts(a) + Texts(b);
    ConcatAppend(Texts(a), Texts(b));
    InkAppend(Concat(Texts(a)), Concat(Texts(b)));
  }

  lemma ChunkInkOne(c: Chunk)
    ensures ChunkInk([c]) == Ink(c.text)
  {
    assert Texts([c]) == [c.text];
    assert Concat([c.text]) == c.text + Concat([]) == c.text;
  }

  /** `c` is the non-empty slice of `text` that its offsets name, with no outer whitespace. */
  predicate ExactSlice(text: string, c: Chunk) {
    && 0 <= c.charStart < c.charEnd <= |text|
    && c.text == text[c.charStart..c.charEnd]
    && !IsSpace(text[c.charStart]) && !IsSpace(text[c.charEnd - 1])
  }

  /** From `lo` to `hi`, `text` reads: whitespace, first chunk, whitespace, second chunk, ...,
      whitespace. */
  predicate Tiles(text: string, lo: int, hi: int, chunks: seq<Chunk>)
    decreases |chunks|
  {
    if chunks == [] then BlankBetween(text, lo, hi)
    else
      && ExactSlice(text, chunks[0])
      && BlankBetween(text, lo, chunks[0].charStart)
      && Tiles(text, chunks[0].charEnd, hi, chunks[1..])
  }

  lemma {:induction false} TilesAfterBlank(text: string, lo: int, mid: int, hi: int, chunks: seq<Chunk>)
    requires BlankBetween(text, lo, mid) && Tiles(text, mid, hi, chunks)
    ensures Tiles(text, lo, hi, chunks)
  {
    if chunks != [] {
      assert BlankBetween(text, lo, chunks[0].charStart);
    }
  }

  /** Tilings of neighbouring stretches concatenate. */
  lemma {:induction false} TilesAppend(text: string, lo: int, mid: int, hi: int, xs: seq<Chunk>, ys: seq<Chunk>)
    requires Tiles(text, lo, mid, xs) && Tiles(text, mid, hi, ys)
    ensures Tiles(text, lo, hi, xs + ys)
    decreases |xs|
  {
    if xs == [] {
      assert xs + ys == ys;
      TilesAfterBlank(text, lo, mid, hi, ys);
    } else {
      TilesAppend(text, xs[0].charEnd, mid, hi, xs[1..], ys);
      assert (xs + ys)[1..] == xs[1..] + ys;
      assert (xs + ys)[0] == xs[0];
    }
  }

  /** The character at `k` belongs to no chunk. */
  predicate Outside(chunks: seq<Chunk>, k: int) {
    forall i :: 0 <= i < |chunks| ==> !(chunks[i].charStart <= k < chunks[i].charEnd)
  }

  lemma {:induction false} TilesSlices(text: string, lo: int, hi: int, chunks: seq<Chunk>, i: nat)
    requires Tiles(text, lo, hi, chunks) && i < |chunks|
    ensures ExactSlice(text, chunks[i]) && 0 <= lo <= chunks[i].charStart && chunks[i].charEnd <= hi <= |text|
    decreases i
  {
    var c := chunks[0];
    if i > 0 {
      TilesSlices(text, c.charEnd, hi, chunks[1..], i - 1);
    } else {
      TilesBounds(text, c.charEnd, hi, chunks[1..]);
    }
  }

  lemma {:induction false} TilesBounds(text: string, lo: int, hi: int, chunks: seq<Chunk>)
    requires Tiles(text, lo, hi, chunks)
    ensures 0 <= lo <= hi <= |text|
    decreases |chunks|
  {
    if chunks != [] {
      TilesBounds(text, chunks[0].charEnd, hi, chunks[1..]);
    }
  }

  lemma {:induction false} TilesInOrder(text: string, lo: int, hi: int, chunks: seq<Chunk>, i: nat, j: nat)
    requires Tiles(text, lo, hi, chunks) && i < j < |chunks|
    ensures chunks[i].charEnd <= chunks[j].charStart
    decreases i
  {
    var c := chunks[0];
    if i > 0 {
      TilesInOrder(text, c.charEnd, hi, chunks[1..], i - 1, j - 1);
    } else {
      TilesSlices(text, c.charEnd, hi, chunks[1..], j - 1);
    }
  }

  lemma {:induction false} TilesOutside(text: string, lo: int, hi: int, chunks: seq<Chunk>, k: int)
    requires Tiles(text, lo, hi, chunks) && lo <= k < hi && Outside(chunks, k)
    ensures 0 <= k < |text| && IsSpace(text[k])
    decreases |chunks|
  {
    TilesBounds(text, lo, hi, chunks);
    if chunks != [] {
      var c, rest := chunks[0], chunks[1..];
      assert !(chunks[0].charStart <= k < chunks[0].charEnd);
      if k >= c.charEnd {
        assert forall i :: 0 <= i < |rest| ==> rest[i] == chunks[i + 1];
        TilesOutside(text, c.charEnd, hi, rest, k);
      }
    }
  }

  /** What a tiling means, chunk by chunk and character by character: chunks are exact slices, in
      order and disjoint, and whatever lies outside all of them is whitespace. */
  lemma TilesExactly(text: string, lo: int, hi: int, chunks: seq<Chunk>)
    requires Tiles(text, lo, hi, chunks)
    ensures 0 <= lo <= hi <= |text|
    ensures forall i :: 0 <= i < |chunks| ==> ExactSlice(text, chunks[i])
    ensures forall i, j :: 0 <= i < j < |chunks| ==> chunks[i].charEnd <= chunks[j].charStart
    ensures forall k :: lo <= k < hi && Outside(chunks, k) ==> IsSpace(text[k])
  {
    TilesBounds(text, lo, hi, chunks);
    forall i | 0 <= i < |chunks| ensures ExactSlice(text, chunks[i]) {
      TilesSlices(text, lo, hi, chunks, i);
    }
    forall i, j | 0 <= i < j < |chunks| ensures chunks[i].charEnd <= chunks[j].charStart {
      TilesInOrder(text, lo, hi, chunks, i, j);
    }
    forall k | lo <= k < hi && Outside(chunks, k) ensures IsSpace(text[k]) {
      TilesOutside(text, lo, hi, chunks, k);
    }
  }

  /** A tiling loses no ink and invents none. */
  lemma {:induction false} TilesKeepInk(text: string, lo: int, hi: int, chunks: seq<Chunk>)
    requires Tiles(text, lo, hi, chunks)
    ensures 0 <= lo <= hi <= |text|
    ensures ChunkInk(chunks) == Ink(text[lo..hi])
    decreases |chunks|
  {
    if chunks == [] {
      InkOfBlank(text[lo..hi]);
    } else {
      var c := chunks[0];
      TilesKeepInk(text, c.charEnd, hi, chunks[1..]);
      ChunkInkOne(c);
      ChunkInkAppend([c], chunks[1..]);
      assert chunks == [c] + chunks[1..];
      InkOfStretch(text, lo, c.charStart, c.charEnd, hi);
    }
  }

  lemma InkOfStretch(text: string, lo: int, a: int, b: int, hi: int)
    requires BlankBetween(text, lo, a) && a <= b <= hi <= |text|
    ensures Ink(text[lo..hi]) == Ink(text[a..b]) + Ink(text[b..hi])
  {
    InkOfBlank(text[lo..a]);
    assert text[lo..hi] == text[lo..a] + text[a..b] + text[b..hi];
    InkAppend(text[lo..a] + text[a..b], text[b..hi]);
    InkAppend(text[lo..a], text[a..b]);
  }
}
