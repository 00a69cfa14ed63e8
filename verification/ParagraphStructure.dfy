/** How the paragraph strategy joins parts, and when it starts a new chunk. Paragraphs, and the sentences of a paragraph
    that is too long, are packed by the same step, so what holds of a list of parts is proved once. */
module ParagraphStructure {
  import opened Text
  import opened Chunks
  import opened ParagraphChunks

  // ----- Lists of parts -----

  /** A part, where it is taken to start, and what is left of it if it has to be cut. */
  datatype Item = Item(part: string, start: int, cut: Packed)

  function PackAll(p: Packed, glue: string, items: seq<Item>, size: nat): Packed
    decreases |items|
  {
    if items == [] then p
    else PackAll(PackStep(p, glue, items[0].part, items[0].start, size, items[0].cut), glue, items[1..], size)
  }

  function ParagraphItems(paragraphs: seq<string>, text: string, cursor: nat, size: nat): (items: seq<Item>)
    requires size > 0
    ensures |items| == |paragraphs|
    decreases |paragraphs|
  {
    if paragraphs == [] then []
    else
      var raw := paragraphs[0];
      var idx := Locate(text, raw, cursor);
      var start := idx + Lead(raw);
      [Item(Strip(raw), start, SplitParagraph(Strip(raw), start, size))]
      + ParagraphItems(paragraphs[1..], text, idx + |raw|, size)
  }

  function SentenceItems(sentences: seq<string>, para: string, paraStart: int, cursor: nat, size: nat): (items: seq<Item>)
    requires size > 0
    ensures |items| == |sentences|
    decreases |sentences|
  {
    if sentences == [] then []
    else
      var s := sentences[0];
      var rel := Locate(para, s, cursor);
      [Item(s, paraStart + rel, SliceSentence(s, paraStart + rel, size))]
      + SentenceItems(sentences[1..], para, paraStart, rel + |s|, size)
  }

  lemma {:induction false} ParagraphsArePacked(p: Packed, paragraphs: seq<string>, text: string, cursor: nat, size: nat)
    requires size > 0
    ensures PackParagraphs(p, paragraphs, text, cursor, size)
         == PackAll(p, "\n\n", ParagraphItems(paragraphs, text, cursor, size), size)
    decreases |paragraphs|
  {
    hide PackStep, SplitParagraph, Locate, Lead, Strip;
    if paragraphs != [] {
      var raw := paragraphs[0];
      var idx := Locate(text, raw, cursor);
      var cut := SplitParagraph(Strip(raw), idx + Lead(raw), size);
      ParagraphsArePacked(
        PackStep(p, "\n\n", Strip(raw), idx + Lead(raw), size, cut), paragraphs[1..], text, idx + |raw|, size);
    }
  }

  lemma {:induction false} SentencesArePacked(p: Packed, sentences: seq<string>, para: string, paraStart: int,
                                              cursor: nat, size: nat)
    requires size > 0
    ensures PackSentences(p, sentences, para, paraStart, cursor, size)
         == PackAll(p, " ", SentenceItems(sentences, para, paraStart, cursor, size), size)
    decreases |sentences|
  {
    hide PackStep, SliceSentence, Locate;
    if sentences != [] {
      var s := sentences[0];
      var rel := Locate(para, s, cursor);
      SentencesArePacked(
        PackStep(p, " ", s, paraStart + rel, size, SliceSentence(s, paraStart + rel, size)),
        sentences[1..], para, paraStart, rel + |s|, size);
    }
  }

  lemma {:induction false} ParagraphItemAt(paragraphs: seq<string>, text: string, cursor: nat, size: nat, k: nat)
    requires size > 0 && k < |paragraphs|
    ensures var item := ParagraphItems(paragraphs, text, cursor, size)[k];
            item.part == Strip(paragraphs[k]) && item.cut == SplitParagraph(item.part, item.start, size)
    decreases |paragraphs|
  {
    hide SplitParagraph, Locate, Lead, Strip;
    if k > 0 {
      ParagraphItemAt(paragraphs[1..], text, Locate(text, paragraphs[0], cursor) + |paragraphs[0]|, size, k - 1);
    }
  }

  lemma {:induction false} SentenceItemAt(sentences: seq<string>, para: string, paraStart: int, cursor: nat, size: nat, k: nat)
    requires size > 0 && k < |sentences|
    ensures var item := SentenceItems(sentences, para, paraStart, cursor, size)[k];
            item.part == sentences[k] && item.cut == SliceSentence(item.part, item.start, size)
    decreases |sentences|
  {
    hide SliceSentence, Locate;
    if k > 0 {
      SentenceItemAt(sentences[1..], para, paraStart, Locate(para, sentences[0], cursor) + |sentences[0]|, size, k - 1);
    }
  }

  // ----- What becomes of a carry -----

  /** `chunks` is what packing may end in from `p` on: what was emitted stays, and the carry, with more behind it,
      becomes the next chunk. */
  ghost predicate LeadsTo(p: Packed, chunks: seq<Chunk>) {
    && p.chunks <= chunks
    && (p.carry != "" ==> exists more :: p.chunks + FlushChunk(p.carry + more, p.carryStart) <= chunks)
  }

  lemma FinishLeads(p: Packed)
    ensures LeadsTo(p, Finish(p))
  {
    assert p.carry + "" == p.carry;
    assert p.chunks + FlushChunk(p.carry + "", p.carryStart) <= Finish(p);
  }

  lemma StepLeads(p: Packed, glue: string, item: Item, size: nat, chunks: seq<Chunk>)
    requires LeadsTo(PackStep(p, glue, item.part, item.start, size, item.cut), chunks)
    ensures LeadsTo(p, chunks)
  {
    hide FlushChunk;
    var q := PackStep(p, glue, item.part, item.start, size, item.cut);
    if |p.carry| + |item.part| + |glue| <= size {
      if p.carry != "" {
        var more :| q.chunks + FlushChunk(q.carry + more, q.carryStart) <= chunks;
        assert q.carry + more == p.carry + (glue + item.part + more);
      }
    } else {
      assert p.carry + "" == p.carry;
      PrefixOfPrefix(p.chunks, FlushChunk(p.carry, p.carryStart), q.chunks, chunks);
      assert p.chunks + FlushChunk(p.carry + "", p.carryStart) <= chunks;
    }
  }

  lemma PrefixOfPrefix<T>(a: seq<T>, b: seq<T>, c: seq<T>, d: seq<T>)
    requires a + b <= c <= d
    ensures a <= d && a + b <= d
  {
    assert a == d[..|a|];
  }

  lemma {:induction false} AllLead(p: Packed, glue: string, items: seq<Item>, size: nat, chunks: seq<Chunk>)
    requires LeadsTo(PackAll(p, glue, items, size), chunks)
    ensures LeadsTo(p, chunks)
    decreases |items|
  {
    hide LeadsTo, PackStep;
    if items != [] {
      AllLead(PackStep(p, glue, items[0].part, items[0].start, size, items[0].cut), glue, items[1..], size, chunks);
      StepLeads(p, glue, items[0], size, chunks);
    }
  }

  // ----- Neighbours -----

  ghost predicate Contains(s: string, x: string) {
    exists u, v :: s == u + x + v
  }

  predicate EndsWith(s: string, x: string) {
    |x| <= |s| && s[|s| - |x|..] == x
  }

  /** The chunk at `i` is the stripped text of `s`, and the next begins with `b`. */
  ghost predicate BreaksAt(chunks: seq<Chunk>, i: nat, s: string, b: string) {
    && i + 1 < |chunks| && chunks[i].text == Strip(s)
    && exists more :: chunks[i + 1].text == Strip(b + more)
  }

  /** Two neighbouring parts are in one chunk, joined by the glue; or the second begins a chunk, because it did not fit
      behind what was collected up to the first. */
  ghost predicate Joined(chunks: seq<Chunk>, a: string, b: string, glue: string, size: nat) {
    || (exists i: nat :: i < |chunks| && Contains(chunks[i].text, Strip(a + glue + b)))
    || (exists i: nat, s :: EndsWith(s, a) && |s| + |glue| + |b| > size && BreaksAt(chunks, i, s, b))
  }

  /** Whatever surrounds a stretch, stripping keeps what stripping the stretch alone would keep. */
  lemma StripKeepsInner(w: string, x: string, more: string)
    requires !Blank(x)
    ensures Strip(w + x + more) != "" && Contains(Strip(w + x + more), Strip(x))
  {
    hide *;
    var s := w + x + more;
    InkInside(w, x, more);
    InnerSlice(w, x, more, Lead(x), Lead(x) + |Strip(x)|);
    SliceWithin(s, Lead(s), Lead(s) + |Strip(s)|, |w| + Lead(x), |w| + Lead(x) + |Strip(x)|);
  }

  lemma SliceWithin(s: string, a: nat, b: nat, lo: nat, hi: nat)
    requires a <= lo <= hi <= b <= |s|
    ensures Contains(s[a..b], s[lo..hi])
  {
    SliceOfSlice(s, a, b, lo - a, hi - a);
    SplitInThree(s[a..b], lo - a, hi - a);
    hide Contains;
  }

  lemma SplitInThree(s: string, i: nat, j: nat)
    requires i <= j <= |s|
    ensures Contains(s, s[i..j])
  {
    assert s == s[..i] + s[i..j] + s[j..];
  }

  lemma InnerSlice(w: string, x: string, more: string, i: nat, j: nat)
    requires i <= j <= |x|
    ensures (w + x + more)[|w| + i..|w| + j] == x[i..j]
  {
    assert (w + x + more)[|w|..|w| + |x|] == x;
    SliceOfSlice(w + x + more, |w|, |w| + |x|, i, j);
  }

  /** The first and the last character of `x` that are not whitespace lie within the stripped text. */
  lemma InkInside(w: string, x: string, more: string)
    requires !Blank(x)
    ensures var s := w + x + more;
            && Strip(s) != "" && Strip(x) != ""
            && Lead(s) <= |w| + Lead(x) && |w| + Lead(x) + |Strip(x)| <= Lead(s) + |Strip(s)|
  {
    var s := w + x + more;
    var first, last := |w| + Lead(x), |w| + Lead(x) + |Strip(x)| - 1;
    var t := Strip(x);
    assert t != "" && !IsSpace(t[|t| - 1]);
    assert s[first] == x[Lead(x)] && s[last] == x[Lead(x) + |t| - 1] == t[|t| - 1];
    assert !IsSpace(s[first]) && !IsSpace(s[last]);
    hide IsSpace;
  }

  /** The chunk that a carry becomes. */
  lemma CarryBecomes(p: Packed, chunks: seq<Chunk>, x: string, y: string)
    requires LeadsTo(p, chunks) && p.carry == x + y && !Blank(y)
    ensures |p.chunks| < |chunks| && Contains(chunks[|p.chunks|].text, Strip(y))
    ensures exists more :: chunks[|p.chunks|].text == Strip(p.carry + more)
  {
    assert p.carry != "" by { BlankNothing(); }
    var more :| p.chunks + FlushChunk(p.carry + more, p.carryStart) <= chunks;
    StripKeepsInner(x, y, more);
    NextChunk(p.chunks, p.carry + more, p.carryStart, chunks);
    hide *;
    assert chunks[|p.chunks|].text == Strip(p.carry + more);
  }

  lemma BlankNothing()
    ensures Blank("")
  {}

  lemma NextChunk(before: seq<Chunk>, current: string, start: int, chunks: seq<Chunk>)
    requires before + FlushChunk(current, start) <= chunks && Strip(current) != ""
    ensures |before| < |chunks| && chunks[|before|].text == Strip(current)
  {
    assert (before + FlushChunk(current, start))[|before|] == StrippedChunk(current, start);
  }

  /** A part that fits, taken up by a step, ends the carry. */
  lemma StepTakesUp(p: Packed, glue: string, item: Item, size: nat)
    requires |item.part| <= size
    ensures var q := PackStep(p, glue, item.part, item.start, size, item.cut);
            exists x :: q.carry == x + item.part
  {
    hide FlushChunk;
    assert "" + item.part == item.part;
  }

  /** The step after it. */
  lemma NextStep(q: Packed, x: string, a: string, glue: string, item: Item, size: nat, chunks: seq<Chunk>)
    requires q.carry == x + a && !Blank(a) && !Blank(item.part) && |item.part| <= size
    requires LeadsTo(PackStep(q, glue, item.part, item.start, size, item.cut), chunks)
    ensures Joined(chunks, a, item.part, glue, size)
  {
    BlankNothing();
    if |q.carry| + |item.part| + |glue| <= size {
      StepJoins(q, x, a, glue, item, size);
      NotBlankWith(a, glue, item.part);
      hide *;
      CarryBecomes(PackStep(q, glue, item.part, item.start, size, item.cut), chunks, x, a + glue + item.part);
      JoinedInOne(chunks, |q.chunks|, a, item.part, glue, size);
    } else {
      StepBreaks(q, x, a, glue, item, size);
      hide *;
      CarryBecomes(PackStep(q, glue, item.part, item.start, size, item.cut), chunks, "", item.part);
      var r := PackStep(q, glue, item.part, item.start, size, item.cut);
      LeadsOn(r, chunks, |q.chunks|);
      JoinedByBreak(chunks, |q.chunks|, q.carry, a, item.part, glue, size);
    }
  }

  lemma StepJoins(q: Packed, x: string, a: string, glue: string, item: Item, size: nat)
    requires q.carry == x + a && a != "" && |q.carry| + |item.part| + |glue| <= size
    ensures var r := PackStep(q, glue, item.part, item.start, size, item.cut);
            r.carry == x + (a + glue + item.part) && r.chunks == q.chunks
  {}

  lemma StepBreaks(q: Packed, x: string, a: string, glue: string, item: Item, size: nat)
    requires q.carry == x + a && !Blank(a) && |item.part| <= size && |q.carry| + |item.part| + |glue| > size
    ensures var r := PackStep(q, glue, item.part, item.start, size, item.cut);
            && r.carry == "" + item.part && |r.chunks| == |q.chunks| + 1
            && r.chunks[|q.chunks|].text == Strip(q.carry) && EndsWith(q.carry, a)
  {
    StripKeepsInner(x, a, "");
    assert x + a + "" == q.carry;
    NextChunk(q.chunks, q.carry, q.carryStart, q.chunks + FlushChunk(q.carry, q.carryStart));
  }

  lemma LeadsOn(r: Packed, chunks: seq<Chunk>, i: nat)
    requires LeadsTo(r, chunks) && i < |r.chunks|
    ensures i < |chunks| && chunks[i] == r.chunks[i]
  {
    hide FlushChunk;
  }

  lemma JoinedInOne(chunks: seq<Chunk>, i: nat, a: string, b: string, glue: string, size: nat)
    requires i < |chunks| && Contains(chunks[i].text, Strip(a + glue + b))
    ensures Joined(chunks, a, b, glue, size)
  {
    hide Contains, Strip;
  }

  lemma JoinedByBreak(chunks: seq<Chunk>, i: nat, s: string, a: string, b: string, glue: string, size: nat)
    requires EndsWith(s, a) && |s| + |glue| + |b| > size
    requires i + 1 < |chunks| && chunks[i].text == Strip(s) && exists more :: chunks[i + 1].text == Strip(b + more)
    ensures Joined(chunks, a, b, glue, size)
  {
    hide Contains, Strip, EndsWith;
    assert BreaksAt(chunks, i, s, b);
  }

  lemma NotBlankWith(a: string, glue: string, b: string)
    requires !Blank(a)
    ensures !Blank(a + glue + b)
  {
    var i :| 0 <= i < |a| && !IsSpace(a[i]);
    assert (a + glue + b)[i] == a[i];
  }

  /** Any two neighbouring parts of a list that fit. */
  lemma {:induction false} NeighboursAreJoined(p: Packed, glue: string, items: seq<Item>, size: nat, k: nat, chunks: seq<Chunk>)
    requires LeadsTo(PackAll(p, glue, items, size), chunks) && k + 1 < |items|
    requires !Blank(items[k].part) && |items[k].part| <= size
    requires !Blank(items[k + 1].part) && |items[k + 1].part| <= size
    ensures Joined(chunks, items[k].part, items[k + 1].part, glue, size)
    decreases |items|
  {
    hide LeadsTo, PackStep, Joined, Blank;
    var q := PackStep(p, glue, items[0].part, items[0].start, size, items[0].cut);
    if k > 0 {
      NeighboursAreJoined(q, glue, items[1..], size, k - 1, chunks);
    } else {
      StepTakesUp(p, glue, items[0], size);
      var x :| q.carry == x + items[0].part;
      var rest := items[1..];
      assert rest[0] == items[1];
      AllLead(PackStep(q, glue, items[1].part, items[1].start, size, items[1].cut), glue, rest[1..], size, chunks);
      NextStep(q, x, items[0].part, glue, items[1], size, chunks);
    }
  }

  /** A part of a list that fits is in one chunk. */
  lemma {:induction false} PartIsHeld(p: Packed, glue: string, items: seq<Item>, size: nat, k: nat, chunks: seq<Chunk>)
    requires LeadsTo(PackAll(p, glue, items, size), chunks) && k < |items|
    requires !Blank(items[k].part) && |items[k].part| <= size
    ensures exists i: nat :: i < |chunks| && Contains(chunks[i].text, Strip(items[k].part))
    decreases |items|
  {
    hide LeadsTo, PackStep, Blank, Contains, Strip;
    var q := PackStep(p, glue, items[0].part, items[0].start, size, items[0].cut);
    if k > 0 {
      PartIsHeld(q, glue, items[1..], size, k - 1, chunks);
    } else {
      StepTakesUp(p, glue, items[0], size);
      var x :| q.carry == x + items[0].part;
      AllLead(q, glue, items[1..], size, chunks);
      CarryBecomes(q, chunks, x, items[0].part);
    }
  }

  /** What is left of a part that was cut is found among the chunks. */
  lemma {:induction false} CutIsFound(p: Packed, glue: string, items: seq<Item>, size: nat, k: nat, chunks: seq<Chunk>)
    returns (from: nat)
    requires LeadsTo(PackAll(p, glue, items, size), chunks) && k < |items| && |items[k].part| > size
    ensures from <= |chunks| && LeadsTo(items[k].cut, chunks[from..])
    decreases |items|
  {
    var q := PackStep(p, glue, items[0].part, items[0].start, size, items[0].cut);
    if k > 0 {
      hide LeadsTo, PackStep;
      from := CutIsFound(q, glue, items[1..], size, k - 1, chunks);
    } else {
      AllLead(q, glue, items[1..], size, chunks);
      from := |p.chunks + FlushChunk(p.carry, p.carryStart)|;
      hide PackAll, FlushChunk;
      CutBehind(p.chunks + FlushChunk(p.carry, p.carryStart), items[0].cut, chunks);
    }
  }

  lemma CutBehind(before: seq<Chunk>, cut: Packed, chunks: seq<Chunk>)
    requires LeadsTo(Packed(before + cut.chunks, cut.carry, cut.carryStart), chunks)
    ensures |before| <= |chunks| && LeadsTo(cut, chunks[|before|..])
  {
    hide FlushChunk;
    var rest := chunks[|before|..];
    assert chunks[..|before| + |cut.chunks|] == before + cut.chunks;
    assert rest[..|cut.chunks|] == cut.chunks;
    if cut.carry != "" {
      var more :| before + cut.chunks + FlushChunk(cut.carry + more, cut.carryStart) <= chunks;
      Behind(before, cut.chunks, FlushChunk(cut.carry + more, cut.carryStart), chunks);
    }
  }

  lemma Behind<T>(a: seq<T>, b: seq<T>, c: seq<T>, d: seq<T>)
    requires a + b + c <= d
    ensures |a| <= |d| && b + c <= d[|a|..]
  {
    assert d[..|a| + |b| + |c|] == a + b + c;
    assert d[|a|..][..|b| + |c|] == b + c;
  }

  lemma JoinedFurtherOn(chunks: seq<Chunk>, from: nat, a: string, b: string, glue: string, size: nat)
    requires from <= |chunks| && Joined(chunks[from..], a, b, glue, size)
    ensures Joined(chunks, a, b, glue, size)
  {
    hide Contains, Strip, EndsWith;
    var rest := chunks[from..];
    if i: nat :| i < |rest| && Contains(rest[i].text, Strip(a + glue + b)) {
      assert chunks[from + i] == rest[i];
    } else {
      var i: nat, s :| EndsWith(s, a) && |s| + |glue| + |b| > size && BreaksAt(rest, i, s, b);
      assert chunks[from + i] == rest[i] && chunks[from + i + 1] == rest[i + 1];
      assert BreaksAt(chunks, from + i, s, b);
    }
  }

  // ----- Sentences that are too long -----

  /** The sentence is cut every `size` characters from `pos` on: each slice but the last is a chunk of its own, and the
      last begins one. */
  ghost predicate SlicedInto(chunks: seq<Chunk>, sentence: string, pos: nat, size: nat)
    requires size > 0
    decreases |sentence| - pos
  {
    if pos + size < |sentence| then
      chunks != [] && chunks[0].text == Strip(sentence[pos..pos + size])
      && SlicedInto(chunks[1..], sentence, pos + size, size)
    else
      pos < |sentence| && !Blank(sentence[pos..]) ==>
        chunks != [] && exists more :: chunks[0].text == Strip(sentence[pos..] + more)
  }

  lemma {:induction false} SlicesAreFound(p: Packed, sentence: string, start: int, pos: nat, size: nat, chunks: seq<Chunk>)
    requires size > 0 && p.carry == "" && pos < |sentence|
    requires LeadsTo(SliceFrom(p, sentence, start, pos, size), chunks)
    ensures |p.chunks| <= |chunks| && SlicedInto(chunks[|p.chunks|..], sentence, pos, size)
    decreases |sentence| - pos
  {
    hide FlushChunk, Strip, Blank, Contains;
    if pos + size < |sentence| {
      var q := SliceStep(p, sentence, start, pos, size);
      SlicesAreFound(q, sentence, start, pos + size, size, chunks);
      SliceKeepsChunks(q, sentence, start, pos + size, size);
      hide LeadsTo, SliceFrom;
      LeadsFar(SliceFrom(q, sentence, start, pos + size, size), chunks, |p.chunks|);
      OneFurther(p.chunks, q.chunks, chunks);
    } else {
      LastSlice(p, sentence, start, pos, size, chunks);
    }
  }

  lemma {:induction false} SliceKeepsChunks(p: Packed, sentence: string, start: int, pos: nat, size: nat)
    requires size > 0
    ensures p.chunks <= SliceFrom(p, sentence, start, pos, size).chunks
    decreases |sentence| - pos
  {
    hide StrippedChunk;
    if pos < |sentence| {
      SliceKeepsChunks(SliceStep(p, sentence, start, pos, size), sentence, start, pos + size, size);
    }
  }

  lemma LeadsFar(r: Packed, chunks: seq<Chunk>, i: nat)
    requires LeadsTo(r, chunks) && i < |r.chunks|
    ensures i < |chunks| && chunks[i] == r.chunks[i]
  {
    LeadsOn(r, chunks, i);
  }

  lemma OneFurther(a: seq<Chunk>, b: seq<Chunk>, chunks: seq<Chunk>)
    requires |b| == |a| + 1 <= |chunks|
    ensures chunks[|a|..] != [] && chunks[|a|..][0] == chunks[|a|] && chunks[|a|..][1..] == chunks[|b|..]
  {}

  lemma LastSlice(p: Packed, sentence: string, start: int, pos: nat, size: nat, chunks: seq<Chunk>)
    requires size > 0 && p.carry == "" && pos < |sentence| <= pos + size
    requires LeadsTo(SliceFrom(p, sentence, start, pos, size), chunks)
    ensures |p.chunks| <= |chunks| && SlicedInto(chunks[|p.chunks|..], sentence, pos, size)
  {
    var q := Packed(p.chunks, sentence[pos..], start + pos);
    assert SliceFrom(p, sentence, start, pos, size) == q by {
      assert SliceFrom(q, sentence, start, pos + size, size) == q;
    }
    assert "" + q.carry == q.carry;
    hide FlushChunk, Strip, Blank, Contains, SliceFrom;
    assert |p.chunks| <= |chunks|;
    hide LeadsTo;
    if !Blank(q.carry) {
      CarryBecomes(q, chunks, "", q.carry);
      FirstFrom(chunks, |p.chunks|);
    }
  }

  lemma FirstFrom<T>(s: seq<T>, i: nat)
    requires i < |s|
    ensures s[i..] != [] && s[i..][0] == s[i]
  {}

  // ----- The promise -----

  /** The paragraphs of a text that are not blank, stripped. */
  function Paragraphs(text: string): (ps: seq<string>)
    ensures |ps| == |NonBlank(Split(text, "\n\n"))|
  {
    var raws := NonBlank(Split(text, "\n\n"));
    seq(|raws|, i requires 0 <= i < |raws| => Strip(raws[i]))
  }

  lemma ParagraphsLead(text: string, size: nat) returns (items: seq<Item>)
    requires size > 0 && Paragraphs(text) != []
    ensures |items| == |Paragraphs(text)| && LeadsTo(PackAll(Packed([], "", 0), "\n\n", items, size), ParagraphSpec(text, size))
    ensures forall k :: 0 <= k < |items| ==>
              && items[k].part == Paragraphs(text)[k] && !Blank(items[k].part)
              && items[k].cut == SplitParagraph(items[k].part, items[k].start, size)
  {
    var raws := NonBlank(Split(text, "\n\n"));
    items := ParagraphItems(raws, text, 0, size);
    TextIsNotBlank(text);
    ParagraphsArePacked(Packed([], "", 0), raws, text, 0, size);
    FinishLeads(PackAll(Packed([], "", 0), "\n\n", items, size));
    hide PackAll, PackParagraphs, Finish, LeadsTo, FlushChunk, Split, SplitParagraph, NonBlank, Strip, Blank;
    forall k | 0 <= k < |items|
      ensures items[k].part == Paragraphs(text)[k] && !Blank(items[k].part)
      ensures items[k].cut == SplitParagraph(items[k].part, items[k].start, size)
    {
      ParagraphItemAt(raws, text, 0, size, k);
      assert raws[k] in raws;
      StripIsNotBlank(raws[k]);
    }
  }

  lemma StripIsNotBlank(s: string)
    requires !Blank(s)
    ensures !Blank(Strip(s))
  {
    var t := Strip(s);
    assert !IsSpace(t[|t| - 1]);
  }

  lemma TextIsNotBlank(text: string)
    requires Paragraphs(text) != []
    ensures Strip(text) != ""
  {
    if Strip(text) == "" {
      ParagraphChunksKeepNothing(text);
    }
  }

  lemma ParagraphChunksKeepNothing(text: string)
    requires Blank(text)
    ensures NonBlank(Split(text, "\n\n")) == []
  {
    InkOfBlank(text);
    NonBlankKeepsInk(Split(text, "\n\n"));
    GluesAreBlank();
    InkOfJoin(Split(text, "\n\n"), "\n\n");
    JoinSplit(text, "\n\n");
    var kept := NonBlank(Split(text, "\n\n"));
    if kept != [] {
      assert kept[0] in kept;
      InkOfFirst(kept);
    }
  }

  lemma InkOfFirst(parts: seq<string>)
    requires parts != [] && !Blank(parts[0])
    ensures Ink(Concat(parts)) != ""
  {
    InkAppend(parts[0], Concat(parts[1..]));
    InkOfBlank(parts[0]);
  }

  /** Neighbouring paragraphs that fit into a chunk are joined by a blank line, and a new chunk begins only where the next
      paragraph would not have fitted behind what was collected. */
  lemma ParagraphsAreJoined(text: string, size: nat, k: nat)
    requires size > 0 && k + 1 < |Paragraphs(text)|
    requires |Paragraphs(text)[k]| <= size && |Paragraphs(text)[k + 1]| <= size
    ensures Joined(ParagraphSpec(text, size), Paragraphs(text)[k], Paragraphs(text)[k + 1], "\n\n", size)
  {
    hide *;
    var items := ParagraphsLead(text, size);
    NeighboursAreJoined(Packed([], "", 0), "\n\n", items, size, k, ParagraphSpec(text, size));
  }

  /** A paragraph that fits into a chunk stands in one, undivided. */
  lemma ParagraphIsHeld(text: string, size: nat, k: nat)
    requires size > 0 && k < |Paragraphs(text)| && |Paragraphs(text)[k]| <= size
    ensures exists i: nat :: i < |ParagraphSpec(text, size)| && Contains(ParagraphSpec(text, size)[i].text, Paragraphs(text)[k])
  {
    hide *;
    var items := ParagraphsLead(text, size);
    PartIsHeld(Packed([], "", 0), "\n\n", items, size, k, ParagraphSpec(text, size));
    StrippedAlready(text, k);
  }

  lemma StrippedAlready(text: string, k: nat)
    requires k < |Paragraphs(text)|
    ensures Strip(Paragraphs(text)[k]) == Paragraphs(text)[k]
  {
    StripTwice(NonBlank(Split(text, "\n\n"))[k]);
  }

  lemma StripTwice(s: string)
    ensures Strip(Strip(s)) == Strip(s)
  {
    var t := Strip(s);
    if t != "" {
      assert t[0] == s[Lead(s)] && !IsSpace(t[0]);
      assert Lead(t) == 0;
      assert !IsSpace(t[|t| - 1]);
    }
  }

  lemma SentencesLead(text: string, size: nat, k: nat) returns (items: seq<Item>, from: nat)
    requires size > 0 && k < |Paragraphs(text)| && |Paragraphs(text)[k]| > size
    ensures from <= |ParagraphSpec(text, size)|
    ensures LeadsTo(PackAll(Packed([], "", 0), " ", items, size), ParagraphSpec(text, size)[from..])
    ensures |items| == |Sentences(Paragraphs(text)[k])|
    ensures forall j :: 0 <= j < |items| ==>
              && items[j].part == Sentences(Paragraphs(text)[k])[j]
              && items[j].cut == SliceSentence(items[j].part, items[j].start, size)
  {
    hide *;
    var paragraphs := ParagraphsLead(text, size);
    from := CutIsFound(Packed([], "", 0), "\n\n", paragraphs, size, k, ParagraphSpec(text, size));
    items := SentencesOf(paragraphs[k].part, paragraphs[k].start, size);
  }

  lemma SentencesOf(para: string, start: int, size: nat) returns (items: seq<Item>)
    requires size > 0
    ensures SplitParagraph(para, start, size) == PackAll(Packed([], "", 0), " ", items, size)
    ensures |items| == |Sentences(para)|
    ensures forall j :: 0 <= j < |items| ==>
              && items[j].part == Sentences(para)[j]
              && items[j].cut == SliceSentence(items[j].part, items[j].start, size)
  {
    items := SentenceItems(Sentences(para), para, start, 0, size);
    SentencesArePacked(Packed([], "", 0), Sentences(para), para, start, 0, size);
    hide PackAll, PackSentences, Sentences, SentenceItems, SliceSentence;
    forall j | 0 <= j < |items|
      ensures items[j].part == Sentences(para)[j] && items[j].cut == SliceSentence(items[j].part, items[j].start, size)
    {
      SentenceItemAt(Sentences(para), para, start, 0, size, j);
    }
  }

  /** Of a paragraph that is too long, neighbouring sentences that fit into a chunk are joined by a space, and a new chunk
      begins only where the next sentence would not have fitted. Sentences end behind ". " and at line feeds. */
  lemma SentencesAreJoined(text: string, size: nat, k: nat, j: nat)
    requires size > 0 && k < |Paragraphs(text)| && |Paragraphs(text)[k]| > size
    requires var sentences := Split(Replace(Paragraphs(text)[k], ". ", ".\n"), "\n");
             && j + 1 < |sentences|
             && !Blank(sentences[j]) && |sentences[j]| <= size
             && !Blank(sentences[j + 1]) && |sentences[j + 1]| <= size
    ensures var sentences := Split(Replace(Paragraphs(text)[k], ". ", ".\n"), "\n");
            Joined(ParagraphSpec(text, size), sentences[j], sentences[j + 1], " ", size)
  {
    assert Sentences(Paragraphs(text)[k]) == Split(Replace(Paragraphs(text)[k], ". ", ".\n"), "\n");
    hide *;
    var items, from := SentencesLead(text, size, k);
    NeighboursAreJoined(Packed([], "", 0), " ", items, size, j, ParagraphSpec(text, size)[from..]);
    JoinedFurtherOn(ParagraphSpec(text, size), from, items[j].part, items[j + 1].part, " ", size);
  }

  /** A sentence that is itself too long is cut every `size` characters, one chunk to a slice. */
  lemma LongSentencesAreSliced(text: string, size: nat, k: nat, j: nat)
    requires size > 0 && k < |Paragraphs(text)| && |Paragraphs(text)[k]| > size
    requires var sentences := Split(Replace(Paragraphs(text)[k], ". ", ".\n"), "\n");
             j < |sentences| && |sentences[j]| > size
    ensures var sentences := Split(Replace(Paragraphs(text)[k], ". ", ".\n"), "\n");
            exists from: nat :: from <= |ParagraphSpec(text, size)|
              && SlicedInto(ParagraphSpec(text, size)[from..], sentences[j], 0, size)
  {
    assert Sentences(Paragraphs(text)[k]) == Split(Replace(Paragraphs(text)[k], ". ", ".\n"), "\n");
    hide *;
    var chunks := ParagraphSpec(text, size);
    var items, from := SentencesLead(text, size, k);
    var on := CutIsFound(Packed([], "", 0), " ", items, size, j, chunks[from..]);
    SliceIsFound(items[j].part, items[j].start, size, chunks[from..][on..]);
    assert chunks[from..][on..] == chunks[from + on..];
  }

  lemma SliceIsFound(sentence: string, start: int, size: nat, chunks: seq<Chunk>)
    requires size > 0 && |sentence| > size && LeadsTo(SliceSentence(sentence, start, size), chunks)
    ensures SlicedInto(chunks, sentence, 0, size)
  {
    hide LeadsTo, SlicedInto, SliceFrom;
    SlicesAreFound(Packed([], "", 0), sentence, start, 0, size, chunks);
    assert chunks[0..] == chunks;
  }
}
