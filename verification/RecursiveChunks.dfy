/** The recursive separator splitter. */
module RecursiveChunks {
  import opened Text
  import opened Chunks

  const SEPARATORS: seq<string> := ["\n\n", "\n", ". ", " ", ""]

  // ----- What the splitter computes -----

  /** Fixed-width slices from index `i` on, the last resort. */
  function HardSlices(s: string, off: int, i: nat, size: nat): seq<Chunk>
    requires size > 0
    decreases |s| - i
  {
    if i >= |s| then []
    else FlushChunk(s[i..Min(i + size, |s|)], off + i) + HardSlices(s, off, i + size, size)
  }

  function Min(a: int, b: int): int {
    if a <= b then a else b
  }

  /** The parts of `s.split(sep)`, every part but the last with its separator put back. */
  function Pieces(parts: seq<string>, sep: string): (pieces: seq<string>)
    ensures |pieces| == |parts|
  {
    if |parts| <= 1 then parts else [parts[0] + sep] + Pieces(parts[1..], sep)
  }

  /** Pack pieces left to right, starting a new group when the next piece does not fit. */
  function Groups(pieces: seq<string>, current: string, size: nat): seq<string>
    decreases |pieces|
  {
    var open := if current == "" then [] else [current];
    if pieces == [] then open
    else if |current| + |pieces[0]| <= size then Groups(pieces[1..], current + pieces[0], size)
    else open + Groups(pieces[1..], pieces[0], size)
  }

  function SplitSpec(s: string, off: int, seps: seq<string>, size: nat): seq<Chunk>
    requires size > 0
    decreases |seps|, 0, 0
  {
    if |s| <= size || seps == [] then FlushChunk(s, off)
    else if seps[0] == "" then HardSlices(s, off, 0, size)
    else SplitEach(Groups(Pieces(Split(s, seps[0]), seps[0]), "", size), off, seps[1..], size)
  }

  /** Split every group with the remaining separators, each at its own offset. */
  function SplitEach(groups: seq<string>, off: int, seps: seq<string>, size: nat): seq<Chunk>
    requires size > 0
    decreases |seps|, 1, |groups|
  {
    if groups == [] then []
    else SplitSpec(groups[0], off, seps, size) + SplitEach(groups[1..], off + |groups[0]|, seps, size)
  }

  function RecursiveSpec(text: string, size: int): seq<Chunk> {
    if Strip(text) == "" || size <= 0 then [] else SplitSpec(text, 0, SEPARATORS, size)
  }

  // ----- The splitter -----

  /** The loop that the nested function `split` runs on its last, empty separator. */
  method SliceText(s: string, startOffset: int, chunkSize: nat) returns (out: seq<Chunk>)
    requires chunkSize > 0
    ensures out == HardSlices(s, startOffset, 0, chunkSize)
  {
    hide FlushChunk;
    out := [];
    var i := 0;
    while i < |s|
      invariant 0 <= i
      invariant out + HardSlices(s, startOffset, i, chunkSize) == HardSlices(s, startOffset, 0, chunkSize)
    {
      var part := s[i..Min(i + chunkSize, |s|)];
      out := out + FlushChunk(part, startOffset + i);
      i := i + chunkSize;
    }
  }

  /** The nested function `split`. */
  method SplitText(s: string, startOffset: int, seps: seq<string>, chunkSize: nat) returns (out: seq<Chunk>)
    requires chunkSize > 0
    ensures out == SplitSpec(s, startOffset, seps, chunkSize)
    decreases |seps|
  {
    hide FlushChunk, Remaining, Split;
    if |s| <= chunkSize || seps == [] {
      return FlushChunk(s, startOffset);
    }
    var sep, rest := seps[0], seps[1..];
    if sep == "" {
      out := SliceText(s, startOffset, chunkSize);
      return;
    }
    out := [];
    var current, currentStart, cursor := "", startOffset, startOffset;
    var parts := Split(s, sep);
    ghost var pieces := Pieces(parts, sep);
    PiecesAt(parts, sep, 0);
    var i := 0;
    assert pieces[0..] == pieces;
    while i < |parts|
      invariant 0 <= i <= |parts|
      invariant current != "" ==> currentStart == cursor - |current|
      invariant out + Remaining(pieces[i..], current, cursor, rest, chunkSize)
             == Remaining(pieces, "", startOffset, rest, chunkSize)
    {
      PiecesAt(parts, sep, i);
      var piece := parts[i] + (if i < |parts| - 1 then sep else "");
      assert pieces[i..][0] == piece && pieces[i..][1..] == pieces[i + 1..];
      RemainingStep(pieces[i..], current, cursor, rest, chunkSize);
      if |current| + |piece| <= chunkSize {
        if current == "" {
          currentStart := cursor;
        }
        current := current + piece;
      } else {
        if current != "" {
          var sub := SplitText(current, currentStart, rest, chunkSize);
          out := out + sub;
        }
        current := piece;
        currentStart := cursor;
      }
      cursor := cursor + |piece|;
      i := i + 1;
    }
    assert pieces[|parts|..] == [];
    RemainingStart(s, startOffset, seps, chunkSize);
    RemainingEnd(current, cursor, rest, chunkSize);
    if current != "" {
      var sub := SplitText(current, currentStart, rest, chunkSize);
      out := out + sub;
    }
  }

  /** The chunks still to come when `current` is open and `cursor` stands before `pieces`. */
  ghost function Remaining(pieces: seq<string>, current: string, cursor: int, seps: seq<string>, size: nat): seq<Chunk>
    requires size > 0
  {
    SplitEach(Groups(pieces, current, size), cursor - |current|, seps, size)
  }

  lemma RemainingStart(s: string, off: int, seps: seq<string>, size: nat)
    requires 0 < size < |s| && seps != [] && seps[0] != ""
    ensures SplitSpec(s, off, seps, size) == Remaining(Pieces(Split(s, seps[0]), seps[0]), "", off, seps[1..], size)
  {}

  lemma RemainingStep(pieces: seq<string>, current: string, cursor: int, seps: seq<string>, size: nat)
    requires size > 0 && pieces != []
    ensures var p, rest := pieces[0], pieces[1..];
            Remaining(pieces, current, cursor, seps, size)
            == if |current| + |p| <= size then Remaining(rest, current + p, cursor + |p|, seps, size)
               else (if current == "" then [] else SplitSpec(current, cursor - |current|, seps, size))
                    + Remaining(rest, p, cursor + |p|, seps, size)
  {
    var p, rest := pieces[0], pieces[1..];
    if |current| + |p| > size {
      var todo := Groups(rest, p, size);
      if current == "" {
        assert [] + todo == todo;
      } else {
        assert ([current] + todo)[1..] == todo;
      }
    }
  }

  lemma RemainingEnd(current: string, cursor: int, seps: seq<string>, size: nat)
    requires size > 0
    ensures Remaining([], current, cursor, seps, size)
         == if current == "" then [] else SplitSpec(current, cursor - |current|, seps, size)
  {
    if current != "" {
      assert [current][1..] == [];
      assert SplitEach([], cursor, seps, size) == [];
    }
  }

  method RecursiveChunkText(text: string, chunkSize: int) returns (out: seq<Chunk>)
    ensures out == RecursiveSpec(text, chunkSize)
  {
    if Strip(text) == "" || chunkSize <= 0 {
      return [];
    }
    out := SplitText(text, 0, SEPARATORS, chunkSize);
  }

  // ----- Pieces and groups -----

  lemma {:induction false} PiecesAt(parts: seq<string>, sep: string, i: nat)
    requires i < |parts|
    ensures Pieces(parts, sep)[i] == parts[i] + (if i < |parts| - 1 then sep else "")
  {
    if |parts| > 1 {
      PiecesAt(parts[1..], sep, if i > 0 then i - 1 else 0);
    }
  }

  /** Putting the separators back loses nothing. */
  lemma {:induction false} ConcatPieces(parts: seq<string>, sep: string)
    requires parts != []
    ensures Concat(Pieces(parts, sep)) == Join(parts, sep)
  {
    if |parts| > 1 {
      ConcatPieces(parts[1..], sep);
      var tail := Pieces(parts[1..], sep);
      assert ([parts[0] + sep] + tail)[1..] == tail;
    } else {
      assert Concat(parts) == parts[0] + Concat(parts[1..]) == parts[0];
    }
  }

  lemma {:induction false} ConcatGroups(pieces: seq<string>, current: string, size: nat)
    ensures Concat(Groups(pieces, current, size)) == current + Concat(pieces)
    ensures forall g :: g in Groups(pieces, current, size) ==> g != ""
    decreases |pieces|
  {
    if pieces == [] {
      assert Concat(pieces) == "";
      assert current != "" ==> [current][1..] == [] && Concat([current]) == current + Concat([]);
    } else if |current| + |pieces[0]| <= size {
      ConcatGroups(pieces[1..], current + pieces[0], size);
      assert current + pieces[0] + Concat(pieces[1..]) == current + (pieces[0] + Concat(pieces[1..]));
    } else {
      ConcatGroups(pieces[1..], pieces[0], size);
      var tail := Groups(pieces[1..], pieces[0], size);
      if current == "" {
        assert [] + tail == tail && Groups(pieces, current, size) == tail;
        assert current + Concat(pieces) == Concat(pieces);
      } else {
        assert ([current] + tail)[1..] == tail;
      }
    }
  }

  /** Packing is greedy: no two neighbouring groups would have fitted into one chunk. */
  lemma {:induction false} GroupsAreMaximal(pieces: seq<string>, current: string, size: nat)
    ensures var gs := Groups(pieces, current, size);
            && (gs != [] && current != "" ==> current <= gs[0])
            && (gs != [] && current == "" && pieces != [] && pieces[0] != "" ==> pieces[0] <= gs[0])
            && forall i :: 0 <= i < |gs| - 1 ==> |gs[i]| + |gs[i + 1]| > size
    decreases |pieces|
  {
    if pieces != [] {
      if |current| + |pieces[0]| <= size {
        GroupsAreMaximal(pieces[1..], current + pieces[0], size);
      } else {
        GroupsAreMaximal(pieces[1..], pieces[0], size);
        var tail, gs := Groups(pieces[1..], pieces[0], size), Groups(pieces, current, size);
        if current != "" {
          assert forall i :: 1 <= i < |gs| ==> gs[i] == tail[i - 1];
        }
      }
    }
  }

  // ----- Tiling and size -----

  lemma FlushTiles(text: string, lo: nat, hi: nat)
    requires lo <= hi <= |text|
    ensures Tiles(text, lo, hi, FlushChunk(text[lo..hi], lo))
    ensures AllWithin(FlushChunk(text[lo..hi], lo), hi - lo)
  {
    var s := text[lo..hi];
    hide IsSpace, Strip, Lead, BlankBetween, ExactSlice;
    BlankEnds(text, lo, hi);
    if Strip(s) != "" {
      StrippedIsExact(text, lo, hi);
      OneTile(text, lo, hi, StrippedChunk(s, lo));
    } else {
      BlankJoins(text, lo, lo + Lead(s), hi);
    }
  }

  lemma BlankEnds(text: string, lo: nat, hi: nat)
    requires lo <= hi <= |text|
    ensures BlankBetween(text, lo, lo + Lead(text[lo..hi]))
    ensures BlankBetween(text, lo + Lead(text[lo..hi]) + |Strip(text[lo..hi])|, hi)
  {
    hide IsSpace, Strip, Lead, BlankBetween, Blank;
    var s := text[lo..hi];
    Shifted(text, lo, hi, 0, Lead(s));
    Shifted(text, lo, hi, Lead(s) + |Strip(s)|, |s|);
  }

  lemma StrippedIsExact(text: string, lo: nat, hi: nat)
    requires lo <= hi <= |text| && Strip(text[lo..hi]) != ""
    ensures ExactSlice(text, StrippedChunk(text[lo..hi], lo))
  {
    hide IsSpace, Strip, Lead, BlankBetween, Blank, ExactSlice;
    StripEnds(text[lo..hi]);
    ExactFrom(text, lo, hi, Lead(text[lo..hi]), Lead(text[lo..hi]) + |Strip(text[lo..hi])|);
  }

  lemma StripEnds(s: string)
    requires Strip(s) != ""
    ensures !IsSpace(s[Lead(s)]) && !IsSpace(s[Lead(s) + |Strip(s)| - 1])
  {
    hide IsSpace, Strip, Lead, BlankBetween, Blank;
    var t := Strip(s);
    assert t[|t| - 1] == s[Lead(s) + |t| - 1];
  }

  lemma ExactFrom(text: string, lo: nat, hi: nat, a: nat, b: nat)
    requires lo <= hi <= |text| && a < b <= hi - lo
    requires !IsSpace(text[lo..hi][a]) && !IsSpace(text[lo..hi][b - 1])
    ensures ExactSlice(text, Chunk(text[lo..hi][a..b], lo + a, lo + b))
  {
    hide IsSpace;
    SliceOfSlice(text, lo, hi, a, b);
    assert text[lo..hi][a] == text[lo + a];
    assert text[lo..hi][b - 1] == text[lo + b - 1];
  }

  lemma OneTile(text: string, lo: int, hi: int, c: Chunk)
    requires ExactSlice(text, c) && BlankBetween(text, lo, c.charStart) && BlankBetween(text, c.charEnd, hi)
    ensures Tiles(text, lo, hi, [c])
  {
    hide ExactSlice, BlankBetween;
    assert [c][1..] == [];
  }

  lemma BlankJoins(text: string, lo: int, mid: int, hi: int)
    requires BlankBetween(text, lo, mid) && BlankBetween(text, mid, hi)
    ensures BlankBetween(text, lo, hi)
  {
    hide IsSpace;
  }

  lemma Shifted(text: string, lo: nat, hi: nat, a: nat, b: nat)
    requires lo <= hi <= |text| && BlankBetween(text[lo..hi], a, b)
    ensures BlankBetween(text, lo + a, lo + b)
  {
    hide IsSpace;
    forall k | lo + a <= k < lo + b ensures IsSpace(text[k]) {
      assert text[k] == text[lo..hi][k - lo];
    }
  }

  lemma {:induction false} HardSlicesTile(text: string, lo: nat, hi: nat, i: nat, size: nat)
    requires lo <= hi <= |text| && size > 0
    ensures Tiles(text, Min(lo + i, hi), hi, HardSlices(text[lo..hi], lo, i, size))
    ensures AllWithin(HardSlices(text[lo..hi], lo, i, size), size)
    decreases hi - lo - i
  {
    hide FlushChunk, IsSpace, ExactSlice;
    var s := text[lo..hi];
    if i < |s| {
      var j := Min(i + size, |s|);
      SliceOfSlice(text, lo, hi, i, j);
      FlushTiles(text, lo + i, lo + j);
      HardSlicesTile(text, lo, hi, i + size, size);
      TilesAppend(text, lo + i, lo + j, hi, FlushChunk(s[i..j], lo + i), HardSlices(s, lo, i + size, size));
    }
  }

  /** The separators end with the empty one, which always succeeds. */
  predicate Terminal(seps: seq<string>) {
    seps != [] && seps[|seps| - 1] == ""
  }

  lemma {:induction false} SplitTiles(text: string, lo: nat, hi: nat, seps: seq<string>, size: nat)
    requires lo <= hi <= |text| && size > 0 && Terminal(seps)
    ensures Tiles(text, lo, hi, SplitSpec(text[lo..hi], lo, seps, size))
    ensures AllWithin(SplitSpec(text[lo..hi], lo, seps, size), size)
    decreases |seps|, 0, 0
  {
    var s := text[lo..hi];
    if |s| <= size {
      FlushTiles(text, lo, hi);
    } else if seps[0] == "" {
      HardSlicesTile(text, lo, hi, 0, size);
    } else {
      var sep := seps[0];
      var pieces := Pieces(Split(s, sep), sep);
      ConcatPieces(Split(s, sep), sep);
      JoinSplit(s, sep);
      ConcatGroups(pieces, "", size);
      SplitEachTiles(text, lo, hi, Groups(pieces, "", size), seps[1..], size);
    }
  }

  lemma {:induction false} SplitEachTiles(text: string, lo: nat, hi: nat, groups: seq<string>, seps: seq<string>, size: nat)
    requires lo <= hi <= |text| && size > 0 && Terminal(seps)
    requires Concat(groups) == text[lo..hi]
    ensures Tiles(text, lo, hi, SplitEach(groups, lo, seps, size))
    ensures AllWithin(SplitEach(groups, lo, seps, size), size)
    decreases |seps|, 1, |groups|
  {
    hide FlushChunk, IsSpace, ExactSlice;
    if groups != [] {
      var g := groups[0];
      var mid := lo + |g|;
      assert g == Concat(groups)[..|g|] == text[lo..mid];
      assert Concat(groups[1..]) == Concat(groups)[|g|..] == text[mid..hi];
      SplitTiles(text, lo, mid, seps, size);
      SplitEachTiles(text, mid, hi, groups[1..], seps, size);
      TilesAppend(text, lo, mid, hi, SplitSpec(g, lo, seps, size), SplitEach(groups[1..], mid, seps, size));
    }
  }

  /** The splitter's promise: exact, ordered, disjoint slices of at most `size` characters, with
      nothing but whitespace between them. */
  lemma RecursiveChunksTile(text: string, size: int)
    requires size > 0
    ensures var chunks := RecursiveSpec(text, size);
            && Tiles(text, 0, |text|, chunks)
            && AllWithin(chunks, size)
            && ChunkInk(chunks) == Ink(text)
  {
    assert text[0..|text|] == text;
    if Strip(text) != "" {
      SplitTiles(text, 0, |text|, SEPARATORS, size);
    }
    TilesKeepInk(text, 0, |text|, RecursiveSpec(text, size));
  }
}
