/** Where the recursive splitter may cut and where it may not, in terms of the text alone. */
module RecursiveStructure {
  import opened Text
  import opened Chunks
  import opened RecursiveChunks

  // ----- Parts of a text -----

  /** The stretch from `lo` to `hi` is part `k` of a split that starts at `l`, with its separator if one follows. */
  predicate PieceAt(parts: seq<string>, sep: string, l: int, k: int, lo: int, hi: int) {
    && 0 <= k < |parts|
    && lo == l + CutAt(parts, sep, k)
    && hi == lo + |parts[k]| + (if k < |parts| - 1 then |sep| else 0)
  }

  ghost predicate PieceOf(text: string, l: int, h: int, sep: string, lo: int, hi: int)
    requires sep != ""
  {
    0 <= l <= h <= |text| && exists k :: PieceAt(Split(text[l..h], sep), sep, l, k, lo, hi)
  }

  /** The stretch from `lo` to `hi` is the one from `l` to `h`, or a part of one of its pieces, if it is too long for
      one chunk. `rest` are the separators still to be tried on it. */
  ghost predicate Part(text: string, l: int, h: int, seps: seq<string>, size: nat, lo: int, hi: int, rest: seq<string>)
    decreases |seps|
  {
    || (lo == l && hi == h && rest == seps)
    || (h - l > size && seps != [] && seps[0] != ""
        && exists x, y :: PieceOf(text, l, h, seps[0], x, y) && Part(text, x, y, seps[1..], size, lo, hi, rest))
  }

  // ----- What chunks do to a stretch -----

  predicate Meets(c: Chunk, lo: int, hi: int) {
    c.charStart < hi && lo < c.charEnd
  }

  /** At most one chunk takes from the stretch: it is not divided. */
  predicate Whole(chunks: seq<Chunk>, lo: int, hi: int) {
    forall i, j :: 0 <= i < j < |chunks| ==> !(Meets(chunks[i], lo, hi) && Meets(chunks[j], lo, hi))
  }

  /** No chunk reaches over the place. */
  predicate Cut(chunks: seq<Chunk>, k: int) {
    forall i :: 0 <= i < |chunks| ==> !(chunks[i].charStart < k < chunks[i].charEnd)
  }

  predicate Inside(chunks: seq<Chunk>, lo: int, hi: int) {
    forall i :: 0 <= i < |chunks| ==> lo <= chunks[i].charStart <= chunks[i].charEnd <= hi
  }

  lemma WholeAmongOthers(a: seq<Chunk>, b: seq<Chunk>, c: seq<Chunk>, l: int, x: int, y: int, h: int, lo: int, hi: int)
    requires Inside(a, l, x) && Inside(c, y, h) && x <= lo <= hi <= y && Whole(b, lo, hi)
    ensures Whole(a + b + c, lo, hi)
  {
    var all := a + b + c;
    assert forall i :: 0 <= i < |a| ==> all[i] == a[i];
    assert forall i :: 0 <= i < |c| ==> c[i] == all[|a| + |b| + i];
    assert forall i :: 0 <= i < |b| ==> b[i] == all[|a| + i];
    forall i, j | 0 <= i < j < |all| ensures !(Meets(all[i], lo, hi) && Meets(all[j], lo, hi)) {
      if |a| <= i && j < |a| + |b| {
        assert all[i] == b[i - |a|] && all[j] == b[j - |a|];
      } else if i < |a| {
        assert all[i] == a[i];
      } else {
        assert all[j] == c[j - |a| - |b|];
      }
    }
  }

  lemma CutAmongOthers(a: seq<Chunk>, b: seq<Chunk>, c: seq<Chunk>, l: int, x: int, y: int, h: int, k: int)
    requires Inside(a, l, x) && Inside(c, y, h) && x <= k <= y && Cut(b, k)
    ensures Cut(a + b + c, k)
  {
    var all := a + b + c;
    forall i | 0 <= i < |all| ensures !(all[i].charStart < k < all[i].charEnd) {
      if i < |a| {
        assert all[i] == a[i];
      } else if i < |a| + |b| {
        assert all[i] == b[i - |a|];
      } else {
        assert all[i] == c[i - |a| - |b|];
      }
    }
  }

  lemma TilesInside(text: string, lo: int, hi: int, chunks: seq<Chunk>)
    requires Tiles(text, lo, hi, chunks)
    ensures 0 <= lo <= hi <= |text| && Inside(chunks, lo, hi)
  {
    TilesBounds(text, lo, hi, chunks);
    forall i | 0 <= i < |chunks| ensures lo <= chunks[i].charStart <= chunks[i].charEnd <= hi {
      TilesSlices(text, lo, hi, chunks, i);
    }
  }

  lemma EndsAreCuts(chunks: seq<Chunk>, lo: int, hi: int)
    requires Inside(chunks, lo, hi)
    ensures Cut(chunks, lo) && Cut(chunks, hi)
  {}

  // ----- Groups -----

  /** What becomes of the open group and of the next piece. */
  lemma {:induction false} OpenGroup(pieces: seq<string>, current: string, size: nat)
    requires current != ""
    ensures var gs := Groups(pieces, current, size);
            && gs != [] && current <= gs[0] && (|gs[0]| <= size || gs[0] == current)
            && (pieces != [] ==>
                  if |current| + |pieces[0]| <= size then |current| + |pieces[0]| <= |gs[0]| else gs[0] == current)
    decreases |pieces|
  {
    if pieces != [] && |current| + |pieces[0]| <= size {
      OpenGroup(pieces[1..], current + pieces[0], size);
      assert current <= current + pieces[0];
    }
  }

  /** A piece lies in one group, which it shares only if all of it fits; the piece after it is in the same group, or
      would not have fitted into it. */
  ghost predicate InGroup(gs: seq<string>, g: nat, at: nat, piece: string, size: nat) {
    && g < |gs|
    && |Concat(gs[..g])| <= at && at + |piece| <= |Concat(gs[..g])| + |gs[g]|
    && (|gs[g]| <= size || (|Concat(gs[..g])| == at && |gs[g]| == |piece|))
  }

  ghost predicate NextToIt(gs: seq<string>, g: nat, end: nat, next: string, size: nat) {
    && g < |gs|
    && (|| end + |next| <= |Concat(gs[..g])| + |gs[g]|
        || (end == |Concat(gs[..g])| + |gs[g]| && |gs[g]| + |next| > size))
  }

  lemma {:induction false} FindGroup(pieces: seq<string>, current: string, size: nat, i: nat) returns (g: nat)
    requires i < |pieces| && pieces[i] != ""
    ensures var gs := Groups(pieces, current, size);
            var at := |current| + |Concat(pieces[..i])|;
            && InGroup(gs, g, at, pieces[i], size)
            && (i + 1 < |pieces| ==> NextToIt(gs, g, at + |pieces[i]|, pieces[i + 1], size))
    decreases |pieces|
  {
    var p, rest := pieces[0], pieces[1..];
    var next := if |current| + |p| <= size then current + p else p;
    var closed := if |current| + |p| <= size || current == "" then [] else [current];
    assert Groups(pieces, current, size) == closed + Groups(rest, next, size);
    hide Groups, InGroup, NextToIt, Concat;
    if i == 0 {
      g := |closed|;
      FirstPiece(pieces, current, size, closed, next);
    } else {
      var t := FindGroup(rest, next, size, i - 1);
      g := |closed| + t;
      LaterPiece(pieces, current, closed, next, Groups(rest, next, size), t, size, i);
    }
  }

  lemma FirstPiece(pieces: seq<string>, current: string, size: nat, closed: seq<string>, next: string)
    requires pieces != [] && pieces[0] != ""
    requires next == if |current| + |pieces[0]| <= size then current + pieces[0] else pieces[0]
    requires closed == if |current| + |pieces[0]| <= size || current == "" then [] else [current]
    ensures var gs := closed + Groups(pieces[1..], next, size);
            var at := |current| + |Concat(pieces[..0])|;
            && InGroup(gs, |closed|, at, pieces[0], size)
            && (1 < |pieces| ==> NextToIt(gs, |closed|, at + |pieces[0]|, pieces[1], size))
  {
    var tail := Groups(pieces[1..], next, size);
    OpenGroup(pieces[1..], next, size);
    hide Groups;
    assert pieces[..0] == [] && Concat([]) == "";
    assert (closed + tail)[..|closed|] == closed && (closed + tail)[|closed|] == tail[0];
    ConcatOne(current);
    hide Concat;
  }

  lemma LaterPiece(pieces: seq<string>, current: string, closed: seq<string>, next: string, tail: seq<string>, t: nat,
                   size: nat, i: nat)
    requires 0 < i < |pieces|
    requires next == if |current| + |pieces[0]| <= size then current + pieces[0] else pieces[0]
    requires closed == if |current| + |pieces[0]| <= size || current == "" then [] else [current]
    requires var at := |next| + |Concat(pieces[1..][..i - 1])|;
             && InGroup(tail, t, at, pieces[1..][i - 1], size)
             && (i < |pieces[1..]| ==> NextToIt(tail, t, at + |pieces[1..][i - 1]|, pieces[1..][i], size))
    ensures var gs := closed + tail;
            var at := |current| + |Concat(pieces[..i])|;
            && InGroup(gs, |closed| + t, at, pieces[i], size)
            && (i + 1 < |pieces| ==> NextToIt(gs, |closed| + t, at + |pieces[i]|, pieces[i + 1], size))
  {
    assert pieces[..i] == [pieces[0]] + pieces[1..][..i - 1];
    ConcatAppend([pieces[0]], pieces[1..][..i - 1]);
    ConcatOne(pieces[0]);
    assert (closed + tail)[..|closed| + t] == closed + tail[..t] && (closed + tail)[|closed| + t] == tail[t];
    ConcatAppend(closed, tail[..t]);
    ConcatOne(current);
    assert Concat([]) == "";
    hide Concat;
  }

  lemma ConcatOne(s: string)
    ensures Concat([s]) == s
  {
    assert Concat([s]) == s + Concat([s][1..]) && Concat([]) == "";
  }

  /** The offset of a piece is where the split cut it. */
  lemma {:induction false} OffsetOfPiece(parts: seq<string>, sep: string, k: nat)
    requires k < |parts|
    ensures |Concat(Pieces(parts, sep)[..k])| == CutAt(parts, sep, k)
  {
    PiecesAt(parts, sep, 0);
    if k == 0 {
      assert Pieces(parts, sep)[..0] == [];
    } else {
      var pieces := Pieces(parts, sep);
      OffsetOfPiece(parts, sep, k - 1);
      PiecesAt(parts, sep, k - 1);
      assert pieces[..k] == pieces[..k - 1] + [pieces[k - 1]];
      ConcatAppend(pieces[..k - 1], [pieces[k - 1]]);
      ConcatOne(pieces[k - 1]);
    }
  }

  lemma {:induction false} SplitEachAt(gs: seq<string>, off: int, seps: seq<string>, size: nat, g: nat)
    requires g < |gs| && size > 0
    ensures SplitEach(gs, off, seps, size)
         == SplitEach(gs[..g], off, seps, size)
            + SplitSpec(gs[g], off + |Concat(gs[..g])|, seps, size)
            + SplitEach(gs[g + 1..], off + |Concat(gs[..g])| + |gs[g]|, seps, size)
    decreases |gs|
  {
    hide *;
    FirstOfEach(gs, off, seps, size);
    if g == 0 {
      NothingBefore(gs, off, seps, size);
    } else {
      SplitEachAt(gs[1..], off + |gs[0]|, seps, size, g - 1);
      WithoutFirst(gs, g);
      FirstOfEach(gs[..g], off, seps, size);
      Associative(
        SplitSpec(gs[0], off, seps, size), SplitEach(gs[1..g], off + |gs[0]|, seps, size),
        SplitSpec(gs[g], off + |Concat(gs[..g])|, seps, size),
        SplitEach(gs[g + 1..], off + |Concat(gs[..g])| + |gs[g]|, seps, size));
    }
  }

  lemma NothingBefore(gs: seq<string>, off: int, seps: seq<string>, size: nat)
    requires gs != [] && size > 0
    ensures |Concat(gs[..0])| == 0 && SplitEach(gs[..0], off, seps, size) == []
    ensures [] + SplitSpec(gs[0], off, seps, size) == SplitSpec(gs[0], off, seps, size)
  {
    hide SplitSpec;
    assert gs[..0] == [];
  }

  lemma WithoutFirst(gs: seq<string>, g: nat)
    requires 0 < g < |gs|
    ensures gs[1..][..g - 1] == gs[1..g] == gs[..g][1..]
    ensures gs[1..][g - 1] == gs[g] && gs[1..][g..] == gs[g + 1..] && gs[..g] != [] && gs[..g][0] == gs[0]
    ensures |Concat(gs[..g])| == |gs[0]| + |Concat(gs[1..g])|
  {
    assert gs[..g][1..] == gs[1..g];
  }

  lemma FirstOfEach(gs: seq<string>, off: int, seps: seq<string>, size: nat)
    requires gs != [] && size > 0
    ensures SplitEach(gs, off, seps, size)
         == SplitSpec(gs[0], off, seps, size) + SplitEach(gs[1..], off + |gs[0]|, seps, size)
  {}

  lemma Associative<T>(a: seq<T>, b: seq<T>, c: seq<T>, d: seq<T>)
    ensures a + (b + c + d) == a + b + c + d
  {}

  // ----- One level -----

  /** The end of part `k` with its separator. */
  function EndOf(parts: seq<string>, sep: string, l: int, k: nat): int
    requires k < |parts|
  {
    l + CutAt(parts, sep, k) + |parts[k]| + (if k < |parts| - 1 then |sep| else 0)
  }

  /** The chunks of a stretch that is too long, seen from one of its pieces: those of the groups before, of the
      group of the piece, and of the groups after. */
  datatype View = View(x: int, y: int, before: seq<Chunk>, group: seq<Chunk>, after: seq<Chunk>)

  ghost predicate Shows(v: View, text: string, l: int, h: int, seps: seq<string>, size: nat)
    requires size > 0 && seps != [] && 0 <= l <= h <= |text|
  {
    && l <= v.x <= v.y <= h
    && SplitSpec(text[l..h], l, seps, size) == v.before + v.group + v.after
    && v.group == SplitSpec(text[v.x..v.y], v.x, seps[1..], size)
    && Inside(v.before, l, v.x) && Inside(v.after, v.y, h)
  }

  lemma ViewGroup(text: string, l: nat, h: nat, gs: seq<string>, seps: seq<string>, size: nat, g: nat) returns (v: View)
    requires l <= h <= |text| && size > 0 && Terminal(seps) && seps[0] != ""
    requires Concat(gs) == text[l..h] && g < |gs|
    requires SplitSpec(text[l..h], l, seps, size) == SplitEach(gs, l, seps[1..], size)
    ensures Shows(v, text, l, h, seps, size)
    ensures v.x == l + |Concat(gs[..g])| && v.y == v.x + |gs[g]|
  {
    hide SplitSpec, SplitEach, Tiles, IsSpace;
    var x := l + |Concat(gs[..g])|;
    var y := x + |gs[g]|;
    ThreeParts(text, l, h, gs, g);
    SplitEachAt(gs, l, seps[1..], size, g);
    SplitEachTiles(text, l, x, gs[..g], seps[1..], size);
    SplitEachTiles(text, y, h, gs[g + 1..], seps[1..], size);
    TilesInside(text, l, x, SplitEach(gs[..g], l, seps[1..], size));
    TilesInside(text, y, h, SplitEach(gs[g + 1..], y, seps[1..], size));
    v := View(x, y, SplitEach(gs[..g], l, seps[1..], size), SplitSpec(text[x..y], x, seps[1..], size),
              SplitEach(gs[g + 1..], y, seps[1..], size));
  }

  lemma ThreeParts(text: string, l: nat, h: nat, gs: seq<string>, g: nat)
    requires l <= h <= |text| && Concat(gs) == text[l..h] && g < |gs|
    ensures var x := l + |Concat(gs[..g])|;
            var y := x + |gs[g]|;
            && y <= h && Concat(gs[..g]) == text[l..x] && gs[g] == text[x..y] && Concat(gs[g + 1..]) == text[y..h]
  {
    var a, b, c := Concat(gs[..g]), gs[g], Concat(gs[g + 1..]);
    assert gs == gs[..g] + ([gs[g]] + gs[g + 1..]);
    ConcatAppend(gs[..g], [gs[g]] + gs[g + 1..]);
    ConcatAppend([gs[g]], gs[g + 1..]);
    ConcatOne(gs[g]);
    hide Concat;
    Slices(text, l, h, a, b, c);
  }

  lemma Slices(text: string, l: nat, h: nat, a: string, b: string, c: string)
    requires l <= h <= |text| && a + (b + c) == text[l..h]
    ensures l + |a| + |b| <= h
    ensures a == text[l..l + |a|] && b == text[l + |a|..l + |a| + |b|] && c == text[l + |a| + |b|..h]
  {
    var s := text[l..h];
    assert a == s[..|a|] && b == s[|a|..|a| + |b|] && c == s[|a| + |b|..];
    SliceOfSlice(text, l, h, 0, |a|);
    SliceOfSlice(text, l, h, |a|, |a| + |b|);
    SliceOfSlice(text, l, h, |a| + |b|, |s|);
  }

  /** One piece of a stretch that is too long: its group is not larger than a chunk, unless the piece is and stands
      alone; and the piece behind it is in the group too, or did not fit. */
  lemma ViewPiece(text: string, l: nat, h: nat, seps: seq<string>, size: nat, k: nat) returns (v: View)
    requires l <= h <= |text| && 0 < size < h - l && Terminal(seps) && seps[0] != ""
    requires var parts := Split(text[l..h], seps[0]);
             k < |parts| && l + CutAt(parts, seps[0], k) < EndOf(parts, seps[0], l, k)
    ensures Shows(v, text, l, h, seps, size)
    ensures var parts := Split(text[l..h], seps[0]);
            var lo, hi := l + CutAt(parts, seps[0], k), EndOf(parts, seps[0], l, k);
            && v.x <= lo && hi <= v.y
            && (v.y - v.x <= size || (v.x == lo && v.y == hi))
            && (k + 1 < |parts| ==>
                  || EndOf(parts, seps[0], l, k + 1) <= v.y
                  || (v.y == hi && EndOf(parts, seps[0], l, k + 1) - v.x > size))
  {
    var gs := GroupsOf(text[l..h], seps[0], size);
    var g := LocatePiece(text[l..h], seps[0], size, k);
    assert SplitSpec(text[l..h], l, seps, size) == SplitEach(gs, l, seps[1..], size);
    EndsShift(Split(text[l..h], seps[0]), seps[0], l, k);
    if k + 1 < |Split(text[l..h], seps[0])| {
      EndsShift(Split(text[l..h], seps[0]), seps[0], l, k + 1);
    }
    hide *;
    v := ViewGroup(text, l, h, gs, seps, size, g);
  }

  lemma EndsShift(parts: seq<string>, sep: string, l: int, k: nat)
    requires k < |parts|
    ensures EndOf(parts, sep, l, k) == l + EndOf(parts, sep, 0, k)
  {}

  function GroupsOf(s: string, sep: string, size: nat): seq<string>
    requires sep != ""
  {
    Groups(Pieces(Split(s, sep), sep), "", size)
  }

  lemma LocatePiece(s: string, sep: string, size: nat, k: nat) returns (g: nat)
    requires sep != "" && k < |Split(s, sep)|
    requires CutAt(Split(s, sep), sep, k) < EndOf(Split(s, sep), sep, 0, k)
    ensures var (parts, gs) := (Split(s, sep), GroupsOf(s, sep, size));
            && Concat(gs) == s && g < |gs|
            && var x := |Concat(gs[..g])|;
               var y := x + |gs[g]|;
               var lo, hi := CutAt(parts, sep, k), EndOf(parts, sep, 0, k);
               && x <= lo && hi <= y
               && (y - x <= size || (x == lo && y == hi))
               && (k + 1 < |parts| ==>
                     EndOf(parts, sep, 0, k + 1) <= y || (y == hi && EndOf(parts, sep, 0, k + 1) - x > size))
  {
    hide *;
    var parts := Split(s, sep);
    var pieces := Pieces(parts, sep);
    GroupsKeepAll(s, sep, size);
    GroupsOfMeans(s, sep, size);
    PieceSpan(parts, sep, k);
    g := FindGroup(pieces, "", size, k);
    InGroupMeans(GroupsOf(s, sep, size), g, |""| + |Concat(pieces[..k])|, pieces[k], size);
    if k + 1 < |parts| {
      PieceSpan(parts, sep, k + 1);
      NextCut(parts, sep, k);
      NextToItMeans(GroupsOf(s, sep, size), g, |""| + |Concat(pieces[..k])| + |pieces[k]|, pieces[k + 1], size);
    }
  }

  lemma GroupsOfMeans(s: string, sep: string, size: nat)
    requires sep != ""
    ensures GroupsOf(s, sep, size) == Groups(Pieces(Split(s, sep), sep), "", size)
  {}

  lemma InGroupMeans(gs: seq<string>, g: nat, at: nat, piece: string, size: nat)
    requires InGroup(gs, g, at, piece, size)
    ensures g < |gs| && |Concat(gs[..g])| <= at && at + |piece| <= |Concat(gs[..g])| + |gs[g]|
    ensures |gs[g]| <= size || (|Concat(gs[..g])| == at && |gs[g]| == |piece|)
  {}

  lemma NextToItMeans(gs: seq<string>, g: nat, end: nat, next: string, size: nat)
    requires NextToIt(gs, g, end, next, size)
    ensures g < |gs|
    ensures || end + |next| <= |Concat(gs[..g])| + |gs[g]|
            || (end == |Concat(gs[..g])| + |gs[g]| && |gs[g]| + |next| > size)
  {}

  lemma GroupsKeepAll(s: string, sep: string, size: nat)
    requires sep != ""
    ensures Concat(GroupsOf(s, sep, size)) == s
  {
    var parts := Split(s, sep);
    ConcatPieces(parts, sep);
    JoinSplit(s, sep);
    ConcatGroups(Pieces(parts, sep), "", size);
  }

  lemma PieceSpan(parts: seq<string>, sep: string, k: nat)
    requires k < |parts|
    ensures |Concat(Pieces(parts, sep)[..k])| == CutAt(parts, sep, k)
    ensures |Pieces(parts, sep)[k]| == EndOf(parts, sep, 0, k) - CutAt(parts, sep, k)
  {
    PiecesAt(parts, sep, k);
    OffsetOfPiece(parts, sep, k);
    hide Pieces, CutAt, Concat;
  }

  lemma NextCut(parts: seq<string>, sep: string, k: nat)
    requires k + 1 < |parts|
    ensures CutAt(parts, sep, k + 1) == EndOf(parts, sep, 0, k)
  {}

  // ----- What is kept of a part -----

  /** The stretch is cut every `size` characters, and nowhere else. */
  predicate CutEvery(chunks: seq<Chunk>, from: int, hi: int, size: nat)
    requires size > 0
    decreases hi - from
  {
    from >= hi ||
    (Cut(chunks, from) && Whole(chunks, from, Min(from + size, hi)) && CutEvery(chunks, from + size, hi, size))
  }

  /** Piece `k`, if it fits into a chunk, shares one with the piece behind it, or else with so much of what stands
      before it in the stretch that the piece behind it does not fit in addition. */
  ghost predicate Packed(chunks: seq<Chunk>, parts: seq<string>, sep: string, l: int, k: nat, size: nat) {
    k + 1 < |parts| ==>
      var a, b, c := l + CutAt(parts, sep, k), EndOf(parts, sep, l, k), EndOf(parts, sep, l, k + 1);
      b - a <= size ==> Whole(chunks, a, c) || exists x :: l <= x <= a && c - x > size && Whole(chunks, x, b)
  }

  /** What the chunks do to a part: one that fits is not divided. One that does not shares no chunk with what is
      around it, and its pieces are packed greedily; where no separator is left, it is cut at fixed distances. */
  ghost predicate Kept(chunks: seq<Chunk>, text: string, lo: int, hi: int, rest: seq<string>, size: nat)
    requires size > 0 && 0 <= lo <= hi <= |text|
  {
    if hi - lo <= size then Whole(chunks, lo, hi)
    else
      && Cut(chunks, lo) && Cut(chunks, hi)
      && (rest == [""] ==> CutEvery(chunks, lo, hi, size))
      && (rest != [] && rest[0] != "" ==>
            forall k: nat :: Packed(chunks, Split(text[lo..hi], rest[0]), rest[0], lo, k, size))
  }

  lemma {:induction false} CutEveryAmongOthers(a: seq<Chunk>, b: seq<Chunk>, c: seq<Chunk>, l: int, x: int, y: int, h: int,
                                               from: int, hi: int, size: nat)
    requires size > 0 && Inside(a, l, x) && Inside(c, y, h) && x <= from && hi <= y && CutEvery(b, from, hi, size)
    ensures CutEvery(a + b + c, from, hi, size)
    decreases hi - from
  {
    hide Inside, Cut, Whole;
    if from < hi {
      CutAmongOthers(a, b, c, l, x, y, h, from);
      WholeAmongOthers(a, b, c, l, x, y, h, from, Min(from + size, hi));
      CutEveryAmongOthers(a, b, c, l, x, y, h, from + size, hi, size);
    }
  }

  lemma PackedAmongOthers(a: seq<Chunk>, b: seq<Chunk>, c: seq<Chunk>, l: int, x: int, y: int, h: int,
                          parts: seq<string>, sep: string, lo: int, k: nat, size: nat)
    requires Inside(a, l, x) && Inside(c, y, h) && x <= lo && Packed(b, parts, sep, lo, k, size)
    requires k + 1 < |parts| ==> EndOf(parts, sep, lo, k + 1) <= y && EndOf(parts, sep, lo, k) <= y
    requires forall i: nat :: i <= |parts| ==> lo <= lo + CutAt(parts, sep, i)
    ensures Packed(a + b + c, parts, sep, lo, k, size)
  {
    hide Inside, Whole, CutAt;
    if k + 1 < |parts| {
      var u, v, w := lo + CutAt(parts, sep, k), EndOf(parts, sep, lo, k), EndOf(parts, sep, lo, k + 1);
      if v - u <= size {
        if Whole(b, u, w) {
          NextCut(parts, sep, k);
          EndsShift(parts, sep, lo, k);
          WholeAmongOthers(a, b, c, l, x, y, h, u, w);
        } else {
          var z :| lo <= z <= u && w - z > size && Whole(b, z, v);
          WholeAmongOthers(a, b, c, l, x, y, h, z, v);
        }
      }
    }
  }

  lemma {:induction false} SlicesAreCutEvery(text: string, lo: nat, hi: nat, i: nat, size: nat)
    requires lo + i <= hi <= |text| && size > 0
    ensures CutEvery(HardSlices(text[lo..hi], lo, i, size), lo + i, hi, size)
    decreases hi - lo - i
  {
    hide *;
    if lo + i == hi {
      CutEveryPast(HardSlices(text[lo..hi], lo, i, size), hi, hi, size);
    } else {
      var j := Smaller(i + size, hi - lo);
      var first, rest := FlushChunk(text[lo + i..lo + j], lo + i), HardSlices(text[lo..hi], lo, i + size, size);
      if lo + i + size <= hi {
        SlicesAreCutEvery(text, lo, hi, i + size, size);
      } else {
        CutEveryPast(rest, lo + i + size, hi, size);
      }
      OneSlice(text, lo, hi, i, j, size);
      OneSliceMore(first, rest, lo + i, hi, size);
    }
  }

  lemma Smaller(a: nat, b: nat) returns (m: nat)
    ensures m == Min(a, b) && (m == a || m == b) && m <= a && m <= b
  {
    m := Min(a, b);
  }

  lemma CutEveryPast(chunks: seq<Chunk>, from: int, hi: int, size: nat)
    requires size > 0 && from >= hi
    ensures CutEvery(chunks, from, hi, size)
  {}

  lemma OneSlice(text: string, lo: nat, hi: nat, i: nat, j: nat, size: nat)
    requires lo + i < hi <= |text| && size > 0 && j == Min(i + size, hi - lo)
    ensures HardSlices(text[lo..hi], lo, i, size)
         == FlushChunk(text[lo + i..lo + j], lo + i) + HardSlices(text[lo..hi], lo, i + size, size)
    ensures |FlushChunk(text[lo + i..lo + j], lo + i)| <= 1
    ensures Inside(FlushChunk(text[lo + i..lo + j], lo + i), lo + i, Min(lo + i + size, hi))
    ensures Inside(HardSlices(text[lo..hi], lo, i + size, size), Min(lo + i + size, hi), hi)
  {
    hide FlushChunk, Tiles, AllWithin, IsSpace, Inside, HardSlices;
    SliceOfSlice(text, lo, hi, i, j);
    NextSlice(text[lo..hi], lo, i, size);
    AtMostOne(text[lo + i..lo + j], lo + i);
    FlushTiles(text, lo + i, lo + j);
    HardSlicesTile(text, lo, hi, i + size, size);
    TilesInside(text, lo + i, lo + j, FlushChunk(text[lo + i..lo + j], lo + i));
    TilesInside(text, lo + j, hi, HardSlices(text[lo..hi], lo, i + size, size));
  }

  lemma NextSlice(s: string, off: int, i: nat, size: nat)
    requires size > 0 && i < |s|
    ensures HardSlices(s, off, i, size)
         == FlushChunk(s[i..Min(i + size, |s|)], off + i) + HardSlices(s, off, i + size, size)
  {
    hide FlushChunk;
  }

  lemma OneSliceMore(first: seq<Chunk>, rest: seq<Chunk>, from: int, hi: int, size: nat)
    requires size > 0 && from < hi && |first| <= 1
    requires Inside(first, from, Min(from + size, hi)) && Inside(rest, Min(from + size, hi), hi)
    requires CutEvery(rest, from + size, hi, size)
    ensures CutEvery(first + rest, from, hi, size)
  {
    hide Inside, Cut, Whole;
    FirstSlice(first, rest, from, Min(from + size, hi), hi);
    if from + size < hi {
      CutEveryAmongOthers(first, rest, [], from, from + size, hi, hi, from + size, hi, size);
      assert first + rest + [] == first + rest;
    }
  }

  lemma FirstSlice(first: seq<Chunk>, rest: seq<Chunk>, x: int, y: int, h: int)
    requires x <= y <= h && Inside(first, x, y) && Inside(rest, y, h) && |first| <= 1
    ensures Cut(first + rest, x) && Whole(first + rest, x, y)
    ensures Inside([], h, h)
  {
    assert forall i :: 0 <= i < |rest| ==> rest[i] == (first + rest)[|first| + i];
  }

  lemma AtMostOne(s: string, off: int)
    ensures |FlushChunk(s, off)| <= 1
  {}

  lemma OneChunkIsWhole(chunks: seq<Chunk>, lo: int, hi: int)
    requires |chunks| <= 1
    ensures Whole(chunks, lo, hi)
  {}

  lemma {:induction false} CutsAscend(parts: seq<string>, sep: string, k: nat)
    requires k <= |parts|
    ensures 0 <= CutAt(parts, sep, k)
  {}

  lemma EndsWithin(s: string, sep: string, k: nat)
    requires sep != "" && k < |Split(s, sep)|
    ensures EndOf(Split(s, sep), sep, 0, k) <= |s|
  {
    hide *;
    PieceSpan(Split(s, sep), sep, k);
    ConcatPieces(Split(s, sep), sep);
    JoinSplit(s, sep);
    PrefixLength(Pieces(Split(s, sep), sep), k);
  }

  lemma PrefixLength(pieces: seq<string>, k: nat)
    requires k < |pieces|
    ensures |Concat(pieces[..k])| + |pieces[k]| <= |Concat(pieces)|
  {
    assert pieces == pieces[..k] + ([pieces[k]] + pieces[k + 1..]);
    ConcatAppend(pieces[..k], [pieces[k]] + pieces[k + 1..]);
    ConcatAppend([pieces[k]], pieces[k + 1..]);
    ConcatOne(pieces[k]);
    hide Concat;
  }

  lemma KeptAmongOthers(v: View, text: string, l: int, h: int, lo: int, hi: int, rest: seq<string>, size: nat)
    requires size > 0 && 0 <= l <= v.x <= lo <= hi <= v.y <= h <= |text|
    requires Inside(v.before, l, v.x) && Inside(v.after, v.y, h) && Kept(v.group, text, lo, hi, rest, size)
    ensures Kept(v.before + v.group + v.after, text, lo, hi, rest, size)
  {
    hide Inside, Whole, Cut, Packed, CutEvery;
    var (a, b, c) := (v.before, v.group, v.after);
    if hi - lo <= size {
      WholeAmongOthers(a, b, c, l, v.x, v.y, h, lo, hi);
    } else {
      CutAmongOthers(a, b, c, l, v.x, v.y, h, lo);
      CutAmongOthers(a, b, c, l, v.x, v.y, h, hi);
      if rest == [""] {
        CutEveryAmongOthers(a, b, c, l, v.x, v.y, h, lo, hi, size);
      }
      if rest != [] && rest[0] != "" {
        forall k: nat ensures Packed(a + b + c, Split(text[lo..hi], rest[0]), rest[0], lo, k, size) {
          PackedAmongOthersAt(v, text, l, h, lo, hi, rest[0], k, size);
        }
      }
    }
  }

  lemma PackedAmongOthersAt(v: View, text: string, l: int, h: int, lo: int, hi: int, sep: string, k: nat, size: nat)
    requires 0 <= l <= v.x <= lo <= hi <= v.y <= h <= |text| && sep != ""
    requires Inside(v.before, l, v.x) && Inside(v.after, v.y, h)
    requires Packed(v.group, Split(text[lo..hi], sep), sep, lo, k, size)
    ensures Packed(v.before + v.group + v.after, Split(text[lo..hi], sep), sep, lo, k, size)
  {
    var parts := Split(text[lo..hi], sep);
    if k + 1 < |parts| {
      EndsWithin(text[lo..hi], sep, k);
      EndsWithin(text[lo..hi], sep, k + 1);
      EndsShift(parts, sep, lo, k);
      EndsShift(parts, sep, lo, k + 1);
    }
    hide *;
    PackedAmongOthers(v.before, v.group, v.after, l, v.x, v.y, h, parts, sep, lo, k, size);
  }

  /** A stretch that is too long, and a separator to split it by. */
  lemma PiecesArePacked(text: string, l: nat, h: nat, seps: seq<string>, size: nat, k: nat)
    requires l <= h <= |text| && 0 < size < h - l && Terminal(seps) && seps[0] != ""
    ensures Packed(SplitSpec(text[l..h], l, seps, size), Split(text[l..h], seps[0]), seps[0], l, k, size)
  {
    var parts, sep := Split(text[l..h], seps[0]), seps[0];
    if k + 1 < |parts| {
      var v := ViewPiece(text, l, h, seps, size, k);
      var a, b, c := l + CutAt(parts, sep, k), EndOf(parts, sep, l, k), EndOf(parts, sep, l, k + 1);
      if b - a <= size {
        ViewIsSmall(v, text, l, h, seps, size, a, b);
        assert v.y - v.x <= size;
        if c <= v.y {
          WholeAmongOthers(v.before, v.group, v.after, l, v.x, v.y, h, a, c);
        } else {
          WholeAmongOthers(v.before, v.group, v.after, l, v.x, v.y, h, v.x, b);
        }
      }
    }
  }

  lemma ViewIsSmall(v: View, text: string, l: nat, h: nat, seps: seq<string>, size: nat, lo: int, hi: int)
    requires l <= h <= |text| && size > 0 && seps != [] && Shows(v, text, l, h, seps, size)
    requires v.y - v.x <= size
    ensures forall x, y :: Whole(v.group, x, y)
  {
    assert text[v.x..v.y] == text[v.x..v.y];
    AtMostOne(text[v.x..v.y], v.x);
  }

  /** What a split of a stretch does to the stretch itself. */
  lemma StretchIsKept(text: string, l: nat, h: nat, seps: seq<string>, size: nat)
    requires l <= h <= |text| && size > 0 && Terminal(seps)
    ensures Kept(SplitSpec(text[l..h], l, seps, size), text, l, h, seps, size)
  {
    var chunks := SplitSpec(text[l..h], l, seps, size);
    if h - l <= size {
      AtMostOne(text[l..h], l);
      OneChunkIsWhole(chunks, l, h);
    } else {
      SplitTiles(text, l, h, seps, size);
      TilesInside(text, l, h, chunks);
      EndsAreCuts(chunks, l, h);
      if seps == [""] {
        SlicesAreCutEvery(text, l, h, 0, size);
      }
      hide Packed, Cut, Inside, Tiles, CutEvery, SplitSpec;
      if seps[0] != "" {
        forall k: nat ensures Packed(chunks, Split(text[l..h], seps[0]), seps[0], l, k, size) {
          PiecesArePacked(text, l, h, seps, size, k);
        }
      }
    }
  }

  lemma {:induction false} PartIsKept(text: string, l: nat, h: nat, seps: seq<string>, size: nat,
                                      lo: int, hi: int, rest: seq<string>)
    requires l <= h <= |text| && size > 0 && Terminal(seps) && Part(text, l, h, seps, size, lo, hi, rest) && lo < hi
    ensures l <= lo && hi <= h
    ensures Kept(SplitSpec(text[l..h], l, seps, size), text, lo, hi, rest, size)
    decreases |seps|
  {
    hide Kept, SplitSpec, PieceOf, PieceAt, Shows;
    if lo == l && hi == h && rest == seps {
      StretchIsKept(text, l, h, seps, size);
    } else {
      var x, y :| PieceOf(text, l, h, seps[0], x, y) && Part(text, x, y, seps[1..], size, lo, hi, rest);
      var k := WhichPiece(text, l, h, seps[0], x, y);
      PartIsInside(text, x, y, seps[1..], size, lo, hi, rest);
      var v := ViewPiece(text, l, h, seps, size, k);
      if y - x <= size {
        assert lo == x && hi == y && rest == seps[1..];
        SmallPieceIsKept(v, text, l, h, seps, size, lo, hi, rest);
      } else {
        PartIsKept(text, x, y, seps[1..], size, lo, hi, rest);
        LargePieceIsKept(v, text, l, h, seps, size, lo, hi, rest);
      }
    }
  }

  lemma WhichPiece(text: string, l: nat, h: nat, sep: string, x: int, y: int) returns (k: nat)
    requires l <= h <= |text| && sep != "" && PieceOf(text, l, h, sep, x, y)
    ensures k < |Split(text[l..h], sep)|
    ensures x == l + CutAt(Split(text[l..h], sep), sep, k) && y == EndOf(Split(text[l..h], sep), sep, l, k)
    ensures l <= x <= y <= h
  {
    k :| PieceAt(Split(text[l..h], sep), sep, l, k, x, y);
    EndsWithin(text[l..h], sep, k);
    EndsShift(Split(text[l..h], sep), sep, l, k);
  }

  lemma {:induction false} PartIsInside(text: string, l: int, h: int, seps: seq<string>, size: nat,
                                        lo: int, hi: int, rest: seq<string>)
    requires 0 <= l <= h <= |text| && Part(text, l, h, seps, size, lo, hi, rest)
    ensures l <= lo <= hi <= h
    decreases |seps|
  {
    if !(lo == l && hi == h && rest == seps) {
      var x, y :| PieceOf(text, l, h, seps[0], x, y) && Part(text, x, y, seps[1..], size, lo, hi, rest);
      var k := WhichPiece(text, l, h, seps[0], x, y);
      PartIsInside(text, x, y, seps[1..], size, lo, hi, rest);
    }
  }

  lemma SmallPieceIsKept(v: View, text: string, l: nat, h: nat, seps: seq<string>, size: nat,
                         lo: int, hi: int, rest: seq<string>)
    requires l <= h <= |text| && size > 0 && Terminal(seps) && Shows(v, text, l, h, seps, size)
    requires v.x <= lo <= hi <= v.y && hi - lo <= size && (v.y - v.x <= size || (v.x == lo && v.y == hi))
    ensures Kept(SplitSpec(text[l..h], l, seps, size), text, lo, hi, rest, size)
  {
    ViewIsSmall(v, text, l, h, seps, size, lo, hi);
    hide SplitSpec, Whole, Inside;
    assert Kept(v.group, text, lo, hi, rest, size);
    KeptAmongOthers(v, text, l, h, lo, hi, rest, size);
  }

  lemma LargePieceIsKept(v: View, text: string, l: nat, h: nat, seps: seq<string>, size: nat,
                         lo: int, hi: int, rest: seq<string>)
    requires l <= h <= |text| && size > 0 && Terminal(seps) && Shows(v, text, l, h, seps, size)
    requires v.x <= lo <= hi <= v.y && Kept(SplitSpec(text[v.x..v.y], v.x, seps[1..], size), text, lo, hi, rest, size)
    ensures Kept(SplitSpec(text[l..h], l, seps, size), text, lo, hi, rest, size)
  {
    hide SplitSpec, Kept, Inside;
    KeptAmongOthers(v, text, l, h, lo, hi, rest, size);
  }

  // ----- The promise -----

  /** The structure of a text is kept. A part (a paragraph; a line of one that is too long; a sentence of such a line;
      a word of such a sentence) that fits into a chunk with its separator is not divided. One that does not fit
      shares no chunk with what is around it, and its own parts are packed greedily; a word that does not fit is cut
      every `size` characters. */
  lemma StructureIsKept(text: string, size: nat, lo: int, hi: int, rest: seq<string>)
    requires size > 0 && lo < hi && Part(text, 0, |text|, ["\n\n", "\n", ". ", " ", ""], size, lo, hi, rest)
    ensures 0 <= lo && hi <= |text| && Kept(RecursiveSpec(text, size), text, lo, hi, rest, size)
  {
    var seps := ["\n\n", "\n", ". ", " ", ""];
    assert text[0..|text|] == text;
    hide Kept, Part;
    PartIsKept(text, 0, |text|, seps, size, lo, hi, rest);
    if Strip(text) == "" {
      NoChunksKeep(text, lo, hi, rest, size);
    }
  }

  lemma NoChunksKeep(text: string, lo: int, hi: int, rest: seq<string>, size: nat)
    requires size > 0 && 0 <= lo <= hi <= |text|
    ensures Kept([], text, lo, hi, rest, size)
  {
    NothingIsCutEvery(lo, hi, size);
    if hi - lo > size && rest != [] && rest[0] != "" {
      forall k: nat ensures Packed([], Split(text[lo..hi], rest[0]), rest[0], lo, k, size) {}
    }
  }

  lemma {:induction false} NothingIsCutEvery(lo: int, hi: int, size: nat)
    requires size > 0
    ensures CutEvery([], lo, hi, size)
    decreases hi - lo
  {
    if lo < hi {
      NothingIsCutEvery(lo + size, hi, size);
    }
  }

  /** Paragraphs, in plain terms: part `k` of the text's split at blank lines, if it fits with its separator, is
      divided between no two chunks; if it does not, no chunk holds some of it and some of its neighbours. */
  lemma ParagraphsStayWhole(text: string, size: nat, k: nat)
    requires size > 0 && k < |Split(text, "\n\n")|
    ensures var parts := Split(text, "\n\n");
            var lo := CutAt(parts, "\n\n", k);
            var hi := lo + |parts[k]| + (if k < |parts| - 1 then 2 else 0);
            var chunks := RecursiveSpec(text, size);
            && (hi - lo <= size ==>
                  forall i, j :: 0 <= i < j < |chunks| ==>
                    !(chunks[i].charStart < hi && lo < chunks[i].charEnd && chunks[j].charStart < hi && lo < chunks[j].charEnd))
            && (hi - lo > size ==>
                  forall i :: 0 <= i < |chunks| ==>
                    && !(chunks[i].charStart < lo < chunks[i].charEnd)
                    && !(chunks[i].charStart < hi < chunks[i].charEnd))
  {
    var parts := Split(text, "\n\n");
    var lo, hi := CutAt(parts, "\n\n", k), EndOf(parts, "\n\n", 0, k);
    assert hi == lo + |parts[k]| + (if k < |parts| - 1 then 2 else 0);
    hide *;
    ParagraphIsKept(text, size, k);
    WholeMeans(RecursiveSpec(text, size), lo, hi);
    CutMeans(RecursiveSpec(text, size), lo);
    CutMeans(RecursiveSpec(text, size), hi);
  }

  lemma WholeMeans(chunks: seq<Chunk>, lo: int, hi: int)
    ensures Whole(chunks, lo, hi) <==>
              forall i, j :: 0 <= i < j < |chunks| ==>
                !(chunks[i].charStart < hi && lo < chunks[i].charEnd && chunks[j].charStart < hi && lo < chunks[j].charEnd)
  {
    if Whole(chunks, lo, hi) {
      forall i, j | 0 <= i < j < |chunks|
        ensures !(chunks[i].charStart < hi && lo < chunks[i].charEnd && chunks[j].charStart < hi && lo < chunks[j].charEnd)
      {
        assert !(Meets(chunks[i], lo, hi) && Meets(chunks[j], lo, hi));
      }
    }
  }

  lemma CutMeans(chunks: seq<Chunk>, k: int)
    ensures Cut(chunks, k) <==> forall i :: 0 <= i < |chunks| ==> !(chunks[i].charStart < k < chunks[i].charEnd)
  {}

  lemma ParagraphIsKept(text: string, size: nat, k: nat)
    requires size > 0 && k < |Split(text, "\n\n")|
    ensures var parts := Split(text, "\n\n");
            var lo, hi := CutAt(parts, "\n\n", k), EndOf(parts, "\n\n", 0, k);
            && 0 <= lo <= hi <= |text|
            && if hi - lo <= size then Whole(RecursiveSpec(text, size), lo, hi)
               else Cut(RecursiveSpec(text, size), lo) && Cut(RecursiveSpec(text, size), hi)
  {
    hide *;
    var chunks, parts := RecursiveSpec(text, size), Split(text, "\n\n");
    var lo, hi := CutAt(parts, "\n\n", k), EndOf(parts, "\n\n", 0, k);
    EndsWithin(text, "\n\n", k);
    EndNotBeforeStart(parts, "\n\n", k);
    if |text| <= size {
      FitsInOne(text, size);
      OneChunkIsWhole(chunks, lo, hi);
    } else if lo == hi {
      RecursiveChunksTile(text, size);
      NothingIsDivided(text, chunks, lo);
    } else {
      ParagraphIsPart(text, size, k);
      StructureIsKept(text, size, lo, hi, ["\n", ". ", " ", ""]);
      KeptMeans(chunks, text, lo, hi, ["\n", ". ", " ", ""], size);
    }
  }

  lemma EndNotBeforeStart(parts: seq<string>, sep: string, k: nat)
    requires k < |parts|
    ensures 0 <= CutAt(parts, sep, k) <= EndOf(parts, sep, 0, k)
  {}

  lemma NothingIsDivided(text: string, chunks: seq<Chunk>, k: int)
    requires Tiles(text, 0, |text|, chunks)
    ensures Whole(chunks, k, k)
  {
    TilesExactly(text, 0, |text|, chunks);
    hide Tiles, IsSpace;
  }

  lemma ParagraphIsPart(text: string, size: nat, k: nat)
    requires 0 < size < |text| && k < |Split(text, "\n\n")|
    ensures var parts := Split(text, "\n\n");
            Part(text, 0, |text|, ["\n\n", "\n", ". ", " ", ""], size,
                 CutAt(parts, "\n\n", k), EndOf(parts, "\n\n", 0, k), ["\n", ". ", " ", ""])
  {
    var parts, seps := Split(text, "\n\n"), ["\n\n", "\n", ". ", " ", ""];
    var lo, hi := CutAt(parts, "\n\n", k), EndOf(parts, "\n\n", 0, k);
    hide Split, CutAt;
    assert text[0..|text|] == text && seps[1..] == ["\n", ". ", " ", ""];
    assert PieceAt(parts, "\n\n", 0, k, lo, hi);
    assert PieceOf(text, 0, |text|, "\n\n", lo, hi);
    assert Part(text, lo, hi, seps[1..], size, lo, hi, seps[1..]);
  }

  lemma KeptMeans(chunks: seq<Chunk>, text: string, lo: int, hi: int, rest: seq<string>, size: nat)
    requires size > 0 && 0 <= lo <= hi <= |text| && Kept(chunks, text, lo, hi, rest, size)
    ensures if hi - lo <= size then Whole(chunks, lo, hi) else Cut(chunks, lo) && Cut(chunks, hi)
  {
    hide Whole, Cut, CutEvery, Packed, Split;
  }

  lemma FitsInOne(text: string, size: nat)
    requires |text| <= size && size > 0
    ensures |RecursiveSpec(text, size)| <= 1
  {
    AtMostOne(text, 0);
  }

  // ----- Words -----

  /** From `i` on the stretch that ends at `h` is whitespace, wherever `c` occurs in it. */
  predicate OnlyAtEnd(text: string, l: int, h: int, c: char) {
    0 <= l <= h <= |text| && forall i :: l <= i < h && text[i] == c ==> BlankBetween(text, i, h)
  }

  /** A stretch that the separators have been tried on up to `seps`: it begins behind whitespace, and what they were
      for is left at its end alone. */
  predicate Tried(text: string, l: int, h: int, seps: seq<string>) {
    && 0 <= l <= h <= |text|
    && seps in [["\n\n", "\n", ". ", " ", ""], ["\n", ". ", " ", ""], [". ", " ", ""], [" ", ""], [""]]
    && (l == 0 || IsSpace(text[l - 1]))
    && (|seps| <= 3 ==> OnlyAtEnd(text, l, h, '\n'))
    && (|seps| <= 1 ==> OnlyAtEnd(text, l, h, ' '))
  }

  predicate Between(text: string, k: int) {
    0 < k < |text| && !IsSpace(text[k - 1]) && !IsSpace(text[k])
  }

  /** Two adjacent characters that are not whitespace lie in one part that fits into a chunk, or in one that no
      separator divides. */
  lemma {:induction false} PartAround(text: string, l: nat, h: nat, seps: seq<string>, size: nat, k: int)
    returns (lo: int, hi: int, rest: seq<string>)
    requires Tried(text, l, h, seps) && Between(text, k) && l < k < h
    ensures Part(text, l, h, seps, size, lo, hi, rest) && lo < k < hi && Tried(text, lo, hi, rest)
    ensures hi - lo <= size || rest == [""]
    decreases |seps|
  {
    lo, hi, rest := l, h, seps;
    if h - l > size && seps != [""] {
      SeparatorsEndInSpace(seps);
      hide IsSpace, OnlyAtEnd, PieceOf;
      var i, x, y := PieceAround(text, l, h, seps[0], k);
      PieceIsTried(text, l, h, seps, i, x, y);
      lo, hi, rest := PartAround(text, x, y, seps[1..], size, k);
    }
  }

  lemma SeparatorsEndInSpace(seps: seq<string>)
    requires seps in [["\n\n", "\n", ". ", " ", ""], ["\n", ". ", " ", ""], [". ", " ", ""], [" ", ""], [""]]
    ensures seps != [""] ==> seps[0] != "" && IsSpace(seps[0][|seps[0]| - 1])
  {}

  /** The separators end in whitespace, so a cut behind one lies between no two such characters. */
  lemma PieceAround(text: string, l: nat, h: nat, sep: string, k: int) returns (i: nat, x: int, y: int)
    requires l < k < h <= |text| && Between(text, k) && sep != "" && IsSpace(sep[|sep| - 1])
    ensures i < |Split(text[l..h], sep)| && PieceAt(Split(text[l..h], sep), sep, l, i, x, y)
    ensures l <= x < k < y <= h && PieceOf(text, l, h, sep, x, y)
    ensures x == l || IsSpace(text[x - 1])
  {
    hide *;
    var parts := Split(text[l..h], sep);
    JoinSplit(text[l..h], sep);
    i := PieceHolding(parts, sep, k - 1 - l);
    x, y := l + CutAt(parts, sep, i), EndOf(parts, sep, l, i);
    EndsShift(parts, sep, l, i);
    EndsWithin(text[l..h], sep, i);
    EndIsNotBetween(text, l, h, sep, i, k);
    StartIsBehindSpace(text, l, h, sep, i);
    EndOfMeans(parts, sep, l, i);
    PieceOfMeans(text, l, h, sep, i, x, y);
  }

  lemma EndIsNotBetween(text: string, l: nat, h: nat, sep: string, i: nat, k: int)
    requires l < k < h <= |text| && Between(text, k) && sep != "" && IsSpace(sep[|sep| - 1])
    requires i < |Split(text[l..h], sep)|
    ensures EndOf(Split(text[l..h], sep), sep, l, i) != k
  {
    hide IsSpace, Split, CutAt, EndOf;
    if i < |Split(text[l..h], sep)| - 1 {
      EndIsBehindSpace(text, l, h, sep, i);
    } else {
      LastEnds(text[l..h], sep);
      EndsShift(Split(text[l..h], sep), sep, l, i);
    }
  }

  lemma StartIsBehindSpace(text: string, l: nat, h: nat, sep: string, i: nat)
    requires l <= h <= |text| && sep != "" && IsSpace(sep[|sep| - 1]) && i < |Split(text[l..h], sep)|
    ensures var x := l + CutAt(Split(text[l..h], sep), sep, i); l <= x && (x == l || (x <= h && IsSpace(text[x - 1])))
  {
    var parts := Split(text[l..h], sep);
    if i > 0 {
      NextCut(parts, sep, i - 1);
      EndsShift(parts, sep, l, i - 1);
      hide IsSpace, Split, CutAt, EndOf;
      EndIsBehindSpace(text, l, h, sep, i - 1);
    } else {
      NoCutBefore(parts, sep);
    }
  }

  lemma PieceOfMeans(text: string, l: nat, h: nat, sep: string, i: nat, x: int, y: int)
    requires l <= h <= |text| && sep != "" && PieceAt(Split(text[l..h], sep), sep, l, i, x, y)
    ensures PieceOf(text, l, h, sep, x, y)
  {
    hide PieceAt;
  }

  lemma EndOfMeans(parts: seq<string>, sep: string, l: int, i: nat)
    requires i < |parts|
    ensures PieceAt(parts, sep, l, i, l + CutAt(parts, sep, i), EndOf(parts, sep, l, i))
  {
    hide CutAt;
  }

  lemma NoCutBefore(parts: seq<string>, sep: string)
    ensures CutAt(parts, sep, 0) == 0
  {}

  lemma EndIsBehindSpace(text: string, l: nat, h: nat, sep: string, i: nat)
    requires l <= h <= |text| && sep != "" && IsSpace(sep[|sep| - 1]) && i < |Split(text[l..h], sep)| - 1
    ensures var e := EndOf(Split(text[l..h], sep), sep, l, i); l < e <= h && IsSpace(text[e - 1])
  {
    hide *;
    PieceText(text[l..h], sep, i);
    InnerEnd(Split(text[l..h], sep), sep, l, i);
    BlankIsSpace(text, l, h, sep, EndOf(Split(text[l..h], sep), sep, l, i));
  }

  lemma InnerEnd(parts: seq<string>, sep: string, l: int, i: nat)
    requires i < |parts| - 1
    ensures EndOf(parts, sep, l, i) == l + CutAt(parts, sep, i) + |parts[i]| + |sep| && CutAt(parts, sep, i) >= 0
  {}

  /** The piece that holds a place of the text. */
  lemma {:induction false} PieceHolding(parts: seq<string>, sep: string, at: int) returns (i: nat)
    requires sep != "" && parts != [] && 0 <= at < |Join(parts, sep)|
    ensures i < |parts| && CutAt(parts, sep, i) <= at < EndOf(parts, sep, 0, i)
  {
    hide *;
    LengthFromFirst(parts, sep);
    if |parts| == 1 || at < |parts[0]| + |sep| {
      i := 0;
    } else {
      var j := PieceHolding(parts[1..], sep, at - |parts[0]| - |sep|);
      i := j + 1;
      EndShift(parts, sep, j);
    }
  }

  lemma LengthFromFirst(parts: seq<string>, sep: string)
    requires parts != []
    ensures |Join(parts, sep)| == if |parts| == 1 then |parts[0]| else |parts[0]| + |sep| + |Join(parts[1..], sep)|
    ensures CutAt(parts, sep, 0) == 0 && EndOf(parts, sep, 0, 0) == |parts[0]| + if |parts| == 1 then 0 else |sep|
  {}

  lemma EndShift(parts: seq<string>, sep: string, j: nat)
    requires |parts| > 1 && j < |parts| - 1
    ensures CutAt(parts, sep, j + 1) == |parts[0]| + |sep| + CutAt(parts[1..], sep, j)
    ensures EndOf(parts, sep, 0, j + 1) == |parts[0]| + |sep| + EndOf(parts[1..], sep, 0, j)
  {
    CutShift(parts, sep, j);
    assert parts[1..][j] == parts[j + 1];
    hide CutAt;
  }

  lemma {:induction false} CutShift(parts: seq<string>, sep: string, j: nat)
    requires |parts| > 1 && j < |parts| - 1
    ensures CutAt(parts, sep, j + 1) == |parts[0]| + |sep| + CutAt(parts[1..], sep, j)
  {
    if j > 0 {
      CutShift(parts, sep, j - 1);
    } else {
      assert CutAt(parts, sep, 0) == 0;
    }
  }

  /** A part stands where the split cut it, and behind it the separator, if it is not the last. */
  lemma PieceText(s: string, sep: string, i: nat)
    requires sep != "" && i < |Split(s, sep)|
    ensures var (part, x) := (Split(s, sep)[i], CutAt(Split(s, sep), sep, i));
            && x + |part| <= |s| && s[x..x + |part|] == part
            && (i < |Split(s, sep)| - 1 ==> x + |part| + |sep| <= |s| && s[x + |part|..x + |part| + |sep|] == sep)
  {
    hide *;
    var parts := Split(s, sep);
    PieceSpan(parts, sep, i);
    PiecesAt(parts, sep, i);
    ConcatPieces(parts, sep);
    JoinSplit(s, sep);
    assert s[0..|s|] == s;
    ThreeParts(s, 0, |s|, Pieces(parts, sep), i);
    if i < |parts| - 1 {
      TwoSlices(s, CutAt(parts, sep, i), parts[i], sep);
    } else {
      assert parts[i] + "" == parts[i];
    }
  }

  lemma TwoSlices(s: string, x: nat, p: string, sep: string)
    requires x + |p| + |sep| <= |s| && s[x..x + |p + sep|] == p + sep
    ensures s[x + |p|..x + |p| + |sep|] == sep && s[x..x + |p|] == p
  {
    SliceOfSlice(s, x, x + |p + sep|, 0, |p|);
    SliceOfSlice(s, x, x + |p + sep|, |p|, |p| + |sep|);
    assert (p + sep)[0..|p|] == p && (p + sep)[|p|..|p| + |sep|] == sep;
  }

  /** In a piece, a separator of one character occurs at its end alone. */
  lemma SeparatorAtEnd(text: string, l: nat, h: nat, c: char, i: nat, x: int, y: int)
    requires l <= h <= |text| && IsSpace(c) && PieceAt(Split(text[l..h], [c]), [c], l, i, x, y)
    requires l <= x <= y <= h
    ensures OnlyAtEnd(text, x, y, c)
  {
    var part := Split(text[l..h], [c])[i];
    PieceText(text[l..h], [c], i);
    SplitPartsAreClean(text[l..h], [c]);
    assert part in Split(text[l..h], [c]);
    assert x == l + CutAt(Split(text[l..h], [c]), [c], i) && y <= x + |part| + 1;
    hide *;
    SliceOfSlice(text, l, h, x - l, x - l + |part|);
    CleanPart(text, x, part, c);
    CleanUpToLast(text, x, y, c);
  }

  lemma CleanUpToLast(text: string, x: int, y: int, c: char)
    requires 0 <= x <= y <= |text| && IsSpace(c) && forall j :: x <= j < y - 1 ==> text[j] != c
    ensures OnlyAtEnd(text, x, y, c)
  {
    hide IsSpace;
  }

  lemma CleanPart(text: string, x: int, part: string, c: char)
    requires 0 <= x && x + |part| <= |text| && text[x..x + |part|] == part && Find(part, [c], 0) < 0
    ensures forall j :: x <= j < x + |part| ==> text[j] != c
  {
    NotIn(part, c);
    hide *;
    forall j | x <= j < x + |part| ensures text[j] != c {
      assert text[j] == text[x..x + |part|][j - x];
    }
  }

  lemma NotIn(s: string, c: char)
    requires Find(s, [c], 0) < 0
    ensures forall i :: 0 <= i < |s| ==> s[i] != c
  {
    hide Find, At;
    forall i | 0 <= i < |s| ensures s[i] != c {
      NotThere(s, c, i);
    }
  }

  lemma NotThere(s: string, c: char, i: nat)
    requires i < |s| && !At(s, [c], i)
    ensures s[i] != c
  {
    assert s[i..i + 1] == [s[i]];
  }

  lemma OnlyAtEndWithin(text: string, l: int, h: int, x: int, y: int, c: char)
    requires OnlyAtEnd(text, l, h, c) && l <= x <= y <= h
    ensures OnlyAtEnd(text, x, y, c)
  {
    hide IsSpace;
  }

  lemma PieceIsTried(text: string, l: nat, h: nat, seps: seq<string>, i: nat, x: int, y: int)
    requires Tried(text, l, h, seps) && seps != [""] && l <= x <= y <= h
    requires PieceAt(Split(text[l..h], seps[0]), seps[0], l, i, x, y) && (x == l || IsSpace(text[x - 1]))
    ensures Tried(text, x, y, seps[1..])
  {
    hide OnlyAtEnd, IsSpace, Split, CutAt;
    if |seps| == 4 {
      NewlineIsSpace();
      SeparatorAtEnd(text, l, h, '\n', i, x, y);
    } else if |seps| < 4 {
      OnlyAtEndWithin(text, l, h, x, y, '\n');
    }
    if |seps| == 2 {
      NewlineIsSpace();
      SeparatorAtEnd(text, l, h, ' ', i, x, y);
    }
  }

  lemma NewlineIsSpace()
    ensures IsSpace('\n') && IsSpace(' ')
  {}

  lemma LastEnds(s: string, sep: string)
    requires sep != ""
    ensures EndOf(Split(s, sep), sep, 0, |Split(s, sep)| - 1) == |s|
  {
    var parts := Split(s, sep);
    JoinSplit(s, sep);
    LengthOfJoin(parts, sep);
  }

  lemma {:induction false} LengthOfJoin(parts: seq<string>, sep: string)
    requires parts != []
    ensures |Join(parts, sep)| == CutAt(parts, sep, |parts| - 1) + |parts[|parts| - 1]|
  {
    if |parts| > 1 {
      LengthOfJoin(parts[1..], sep);
      CutShift(parts, sep, |parts| - 2);
      assert parts[1..][|parts| - 2] == parts[|parts| - 1];
      hide CutAt;
    } else {
      NoCutBefore(parts, sep);
    }
  }

  lemma BlankIsSpace(text: string, l: nat, h: nat, sep: string, e: int)
    requires l <= h <= |text| && sep != "" && IsSpace(sep[|sep| - 1])
    requires l + |sep| <= e <= h && text[l..h][e - l - |sep|..e - l] == sep
    ensures e > 0 && IsSpace(text[e - 1])
  {
    hide IsSpace;
    SliceOfSlice(text, l, h, e - l - |sep|, e - l);
    assert text[e - |sep|..e][|sep| - 1] == text[e - 1];
  }

  /** In a stretch cut every `size` characters, two chunks touch at such a place alone. */
  lemma {:induction false} TouchAtMultiples(chunks: seq<Chunk>, from: int, hi: int, size: nat, i: nat, k: int)
    returns (m: nat)
    requires size > 0 && CutEvery(chunks, from, hi, size) && from < k < hi
    requires i + 1 < |chunks| && chunks[i].charEnd == k == chunks[i + 1].charStart
    requires chunks[i].charStart < k < chunks[i + 1].charEnd
    ensures m >= 1 && k - from == m * size
    decreases hi - from
  {
    assert k >= from + size by {
      if k < from + size {
        assert Meets(chunks[i], from, Min(from + size, hi)) && Meets(chunks[i + 1], from, Min(from + size, hi));
      }
    }
    if k == from + size {
      m := 1;
    } else {
      var n := TouchAtMultiples(chunks, from + size, hi, size, i, k);
      m := n + 1;
    }
  }

  /** From `a` on a word, if the text is cut at `k`, is too long for a chunk, and `k` is `m` chunk sizes on: the word
      begins behind whitespace or with the text, and up to `k` and the character there it holds neither a space nor a
      line feed. */
  predicate LongWord(text: string, size: nat, a: nat, m: nat, k: int) {
    && a < k < |text| && (a == 0 || IsSpace(text[a - 1]))
    && (forall j :: a <= j <= k ==> text[j] != ' ' && text[j] != '\n')
    && k + 1 - a > size && m >= 1 && k - a == m * size
  }

  /** A cut between two adjacent characters that are not whitespace divides a word that is too long for a chunk, a
      whole number of chunk sizes behind its beginning. */
  lemma OnlyLongWordsAreCut(text: string, size: nat, i: nat)
    requires size > 0 && i + 1 < |RecursiveSpec(text, size)|
    requires RecursiveSpec(text, size)[i].charEnd == RecursiveSpec(text, size)[i + 1].charStart
    ensures exists a, m :: LongWord(text, size, a, m, RecursiveSpec(text, size)[i].charEnd)
  {
    var chunks := RecursiveSpec(text, size);
    var k := chunks[i].charEnd;
    TouchingChunks(text, size, i);
    hide *;
    TriedFromTheStart(text);
    var lo, hi, rest := PartAround(text, 0, |text|, ["\n\n", "\n", ". ", " ", ""], size, k);
    StructureIsKept(text, size, lo, hi, rest);
    var m := WordIsLong(chunks, text, lo, hi, rest, size, i, k);
    assert LongWord(text, size, lo, m, k);
  }

  lemma TriedFromTheStart(text: string)
    ensures Tried(text, 0, |text|, ["\n\n", "\n", ". ", " ", ""])
  {}

  lemma TouchingChunks(text: string, size: nat, i: nat)
    requires size > 0 && i + 1 < |RecursiveSpec(text, size)|
    requires RecursiveSpec(text, size)[i].charEnd == RecursiveSpec(text, size)[i + 1].charStart
    ensures var (c, d) := (RecursiveSpec(text, size)[i], RecursiveSpec(text, size)[i + 1]);
            0 <= c.charStart < c.charEnd < d.charEnd <= |text| && Between(text, c.charEnd)
  {
    hide *;
    var chunks := RecursiveSpec(text, size);
    RecursiveChunksTile(text, size);
    TilesSlices(text, 0, |text|, chunks, i);
    TilesSlices(text, 0, |text|, chunks, i + 1);
    InkAtBothEnds(text, chunks[i], chunks[i + 1]);
  }

  lemma InkAtBothEnds(text: string, c: Chunk, d: Chunk)
    requires ExactSlice(text, c) && ExactSlice(text, d) && c.charEnd == d.charStart
    ensures 0 <= c.charStart < c.charEnd < d.charEnd <= |text| && Between(text, c.charEnd)
  {}

  lemma WordIsLong(chunks: seq<Chunk>, text: string, lo: int, hi: int, rest: seq<string>, size: nat, i: nat, k: int)
    returns (m: nat)
    requires size > 0 && Tried(text, lo, hi, rest) && Kept(chunks, text, lo, hi, rest, size)
    requires lo < k < hi && Between(text, k) && (hi - lo <= size || rest == [""])
    requires i + 1 < |chunks| && chunks[i].charEnd == k == chunks[i + 1].charStart
    requires chunks[i].charStart < k < chunks[i + 1].charEnd
    ensures LongWord(text, size, lo, m, k)
  {
    assert Meets(chunks[i], lo, hi) && Meets(chunks[i + 1], lo, hi);
    m := TouchAtMultiples(chunks, lo, hi, size, i, k);
    AtLeastOne(m, size);
    hide CutEvery, Whole;
    forall j | lo <= j <= k ensures text[j] != ' ' && text[j] != '\n' {
      assert !BlankBetween(text, j, hi);
    }
  }

  lemma AtLeastOne(m: nat, size: nat)
    requires m >= 1
    ensures m * size >= size
  {}
}
