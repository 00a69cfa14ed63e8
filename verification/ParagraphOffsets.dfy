/** The offsets the paragraph strategy reports. Merged chunks may report an end that is short of
    the true one, but chunks still come in order, do not overlap and stay inside the text. */
module ParagraphOffsets {
  import opened Text
  import opened Chunks
  import opened ParagraphChunks

  // ----- Locating parts -----

  /** A part that is not blank is found exactly where the split cut it, if only whitespace lies
      between the cursor and that place. */
  lemma LocateExact(text: string, part: string, cursor: nat, at: nat)
    requires At(text, part, at) && BlankBetween(text, cursor, at) && !Blank(part)
    ensures Locate(text, part, cursor) == at
  {
    hide IsSpace, Find;
    var k := Lead(part);
    forall r | cursor <= r < at ensures !At(text, part, r) {
      assert r + k >= at ==> text[r + k] == text[at..at + |part|][r + k - at];
      assert IsSpace(text[r + k]) && !IsSpace(part[k]);
      assert r + |part| <= |text| ==> text[r..r + |part|][k] == text[r + k];
    }
  }

  lemma LocateBetween(text: string, part: string, cursor: nat, at: nat)
    requires At(text, part, at) && cursor <= at
    ensures cursor <= Locate(text, part, cursor) <= at
  {}

  // ----- Ordered spans -----

  predicate SpanWithin(c: Chunk, lo: int, hi: int) {
    lo <= c.charStart && c.charEnd == c.charStart + |c.text| && c.charEnd <= hi
  }

  predicate Spans(chunks: seq<Chunk>, lo: int, hi: int) {
    && lo <= hi
    && (forall i :: 0 <= i < |chunks| ==> SpanWithin(chunks[i], lo, hi))
    && (forall i, j :: 0 <= i < j < |chunks| ==> chunks[i].charEnd <= chunks[j].charStart)
  }

  lemma SpansAppend(a: seq<Chunk>, b: seq<Chunk>, lo: int, mid: int, hi: int)
    requires Spans(a, lo, mid) && Spans(b, mid, hi)
    ensures Spans(a + b, lo, hi)
  {
    var c := a + b;
    assert forall i :: 0 <= i < |c| ==> c[i] == if i < |a| then a[i] else b[i - |a|];
  }

  function Kept(s: string): nat {
    KeptUpTo(s, |s|)
  }

  /** The emitted chunks lie in order from `lo`; the carry follows them, its last non-blank
      character lies before `cursor`, and the carry with its glue ends before `next`, the true
      start of the next part. */
  predicate InOrder(p: Packed, lo: int, cursor: int, next: int, glue: nat) {
    && cursor <= next
    && if p.carry == "" then Spans(p.chunks, lo, cursor)
       else
         && Spans(p.chunks, lo, p.carryStart)
         && p.carryStart + Kept(p.carry) <= cursor
         && p.carryStart + |p.carry| + glue <= next
  }

  lemma FlushSpan(current: string, start: int)
    ensures Spans(FlushChunk(current, start), start, start + Kept(current))
  {
    var a := Lead(current);
    if Strip(current) != "" {
      assert |Strip(current)| == Kept(current) - a;
    }
  }

  lemma FlushInOrder(p: Packed, lo: int, cursor: int, next: int, glue: nat)
    requires InOrder(p, lo, cursor, next, glue)
    ensures Spans(p.chunks + FlushChunk(p.carry, p.carryStart), lo, cursor)
  {
    hide IsSpace;
    if p.carry == "" {
      assert p.chunks + [] == p.chunks;
    } else {
      FlushSpan(p.carry, p.carryStart);
      SpansAppend(p.chunks, FlushChunk(p.carry, p.carryStart), lo, p.carryStart, p.carryStart + Kept(p.carry));
    }
  }

  lemma KeptOfBlankTail(a: string, b: string)
    requires Blank(b)
    ensures Kept(a + b) == Kept(a)
  {
    KeptOfPrefix(a, b, |a|);
    DropBlankTail(a + b, |a|, |a + b|);
  }

  lemma {:induction false} KeptOfPrefix(a: string, b: string, n: nat)
    requires n <= |a|
    ensures KeptUpTo(a + b, n) == KeptUpTo(a, n)
  {
    if n > 0 {
      assert (a + b)[n - 1] == a[n - 1];
      KeptOfPrefix(a, b, n - 1);
    }
  }

  lemma {:induction false} DropBlankTail(s: string, m: nat, n: nat)
    requires BlankBetween(s, m, n)
    ensures KeptUpTo(s, n) == KeptUpTo(s, m)
    decreases n
  {
    if m < n {
      DropBlankTail(s, m, n - 1);
    }
  }

  lemma InOrderWeaken(p: Packed, lo: int, cursor: int, next: int, cursor': int, next': int, glue: nat)
    requires InOrder(p, lo, cursor, next, glue) && cursor <= cursor' <= next' && next <= next'
    ensures InOrder(p, lo, cursor', next', glue)
  {}

  /** One packing step keeps everything in order. */
  lemma PackStepInOrder(p: Packed, glue: string, part: string, start: int, size: nat, cut: Packed,
                        lo: int, cursor: int, next: int)
    requires InOrder(p, lo, cursor, next, |glue|) && Blank(glue) && lo <= cursor
    requires cursor <= start <= next && (!Blank(part) ==> start == next)
    requires |part| > size ==> InOrder(cut, start, start + |part|, start + |part|, 0)
    ensures InOrder(PackStep(p, glue, part, start, size, cut), lo, start + |part|, next + |part| + |glue|, |glue|)
  {
    hide IsSpace, FlushChunk, KeptUpTo;
    var q := PackStep(p, glue, part, start, size, cut);
    if |p.carry| + |part| + |glue| <= size {
      if p.carry != "" && Blank(part) {
        assert q.carry == p.carry + (glue + part);
        KeptOfBlankTail(p.carry, glue + part);
      }
    } else {
      FlushInOrder(p, lo, cursor, next, |glue|);
      var flushed := p.chunks + FlushChunk(p.carry, p.carryStart);
      assert Spans(flushed, lo, start);
      if |part| > size {
        SpansAppend(flushed, cut.chunks, lo, start, if cut.carry == "" then start + |part| else cut.carryStart);
      }
    }
  }

  lemma StrippedSpan(part: string, start: int)
    ensures Spans([StrippedChunk(part, start)], start, start + |part|)
  {}

  lemma {:induction false} SliceInOrder(p: Packed, sentence: string, start: int, pos: nat, size: nat)
    requires size > 0 && pos < |sentence|
    requires p.carry == "" && Spans(p.chunks, start, start + pos)
    ensures InOrder(SliceFrom(p, sentence, start, pos, size), start, start + |sentence|, start + |sentence|, 0)
    decreases |sentence| - pos
  {
    hide IsSpace, KeptUpTo, StrippedChunk;
    if pos + size < |sentence| {
      var part := sentence[pos..pos + size];
      var c := StrippedChunk(part, start + pos);
      StrippedSpan(part, start + pos);
      SpansAppend(p.chunks, [c], start, start + pos, start + pos + size);
      SliceInOrder(SliceStep(p, sentence, start, pos, size), sentence, start, pos + size, size);
    }
  }

  // ----- Sentences of a paragraph -----

  /** `image` is `para` with some whitespace turned into line feeds. */
  predicate Mirrors(para: string, image: string) {
    && |para| == |image|
    && forall i :: 0 <= i < |para| ==> if image[i] == '\n' then IsSpace(para[i]) else para[i] == image[i]
  }

  lemma MirrorsAppend(a: string, a': string, b: string, b': string)
    requires Mirrors(a, a') && Mirrors(b, b')
    ensures Mirrors(a + b, a' + b')
  {
    hide IsSpace;
  }

  lemma {:induction false} MirrorsJoin(parts: seq<string>)
    ensures Mirrors(Join(parts, ". "), Join(parts, ".\n"))
  {
    if |parts| > 1 {
      MirrorsJoin(parts[1..]);
      MirrorsItself(parts[0]);
      assert Mirrors(". ", ".\n");
      MirrorsAppend(parts[0], parts[0], ". ", ".\n");
      MirrorsAppend(parts[0] + ". ", parts[0] + ".\n", Join(parts[1..], ". "), Join(parts[1..], ".\n"));
    } else if |parts| == 1 {
      MirrorsItself(parts[0]);
    }
  }

  lemma MirrorsItself(s: string)
    ensures Mirrors(s, s)
  {}

  /** The remaining sentences, joined by line feeds, are what is left of the image. */
  predicate Ahead(image: string, pos: nat, sentences: seq<string>) {
    && pos <= |image|
    && image[pos..] == Join(sentences, "\n")
    && forall s :: s in sentences ==> '\n' !in s
  }

  lemma AheadStep(para: string, image: string, pos: nat, sentences: seq<string>)
    requires Mirrors(para, image) && sentences != [] && Ahead(image, pos, sentences)
    ensures At(para, sentences[0], pos)
    ensures |sentences| == 1 ==> pos + |sentences[0]| == |para|
    ensures |sentences| > 1 ==>
              && Ahead(image, pos + |sentences[0]| + 1, sentences[1..])
              && BlankBetween(para, pos + |sentences[0]|, pos + |sentences[0]| + 1)
  {
    hide IsSpace;
    var s := sentences[0];
    var tail := image[pos..];
    assert tail[..|s|] == s;
    assert s in sentences;
    forall k | 0 <= k < |s| ensures para[pos + k] == s[k] {
      assert s[k] in s && image[pos + k] == tail[k] == tail[..|s|][k];
    }
    assert para[pos..pos + |s|] == s;
    if |sentences| > 1 {
      var rest := Join(sentences[1..], "\n");
      assert tail == (s + "\n") + rest;
      assert tail[|s|] == (s + "\n")[|s|];
      assert image[pos + |s|] == tail[|s|];
      assert image[pos + |s| + 1..] == tail[|s| + 1..] == rest;
    }
  }

  /** One sentence of the loop. */
  lemma SentenceStepInOrder(p: Packed, s: string, para: string, paraStart: int, cursor: nat, pos: nat, size: nat)
    requires size > 0 && At(para, s, pos) && BlankBetween(para, cursor, pos)
    requires InOrder(p, paraStart, paraStart + cursor, paraStart + pos, 1)
    ensures var rel := Locate(para, s, cursor);
            var start := paraStart + rel;
            && cursor <= rel <= pos && (Blank(s) || rel == pos)
            && InOrder(PackStep(p, " ", s, start, size, SliceSentence(s, start, size)),
                       paraStart, start + |s|, paraStart + pos + |s| + 1, 1)
  {
    hide IsSpace, PackStep, KeptUpTo, Find, Locate, At, InOrder;
    LocateBetween(para, s, cursor, pos);
    if !Blank(s) {
      LocateExact(para, s, cursor, pos);
    }
    var start := paraStart + Locate(para, s, cursor);
    SliceSentenceInOrder(s, start, size);
    GluesAreBlank();
    PackStepInOrder(p, " ", s, start, size, SliceSentence(s, start, size), paraStart, paraStart + cursor, paraStart + pos);
  }

  lemma SliceSentenceInOrder(s: string, start: int, size: nat)
    requires size > 0
    ensures |s| > size ==> InOrder(SliceSentence(s, start, size), start, start + |s|, start + |s|, 0)
  {
    if |s| > size {
      SliceInOrder(Packed([], "", 0), s, start, 0, size);
    }
  }

  lemma {:induction false} SentencesInOrder(p: Packed, sentences: seq<string>, para: string, image: string,
                                            paraStart: int, cursor: nat, pos: nat, size: nat)
    requires size > 0 && sentences != []
    requires Mirrors(para, image) && Ahead(image, pos, sentences)
    requires BlankBetween(para, cursor, pos)
    requires InOrder(p, paraStart, paraStart + cursor, paraStart + pos, 1)
    ensures InOrder(PackSentences(p, sentences, para, paraStart, cursor, size),
                    paraStart, paraStart + |para|, paraStart + |para| + 1, 1)
    decreases |sentences|
  {
    hide IsSpace, PackStep, Locate, Mirrors, Ahead, At, InOrder, BlankBetween, SliceSentence;
    var s := sentences[0];
    AheadStep(para, image, pos, sentences);
    SentenceStepInOrder(p, s, para, paraStart, cursor, pos, size);
    var rel := Locate(para, s, cursor);
    var start := paraStart + rel;
    var q := PackStep(p, " ", s, start, size, SliceSentence(s, start, size));
    if |sentences| > 1 {
      AfterPart(para, s, cursor, rel, pos, 1);
      SentencesInOrder(q, sentences[1..], para, image, paraStart, rel + |s|, pos + |s| + 1, size);
    } else {
      assert PackSentences(q, [], para, paraStart, rel + |s|, size) == q;
      InOrderWeaken(q, paraStart, start + |s|, paraStart + pos + |s| + 1, paraStart + |para|, paraStart + |para| + 1, 1);
    }
  }

  lemma AfterPart(text: string, part: string, cursor: nat, found: nat, at: nat, gap: nat)
    requires At(text, part, at) && cursor <= found <= at && (Blank(part) || found == at)
    requires BlankBetween(text, at + |part|, at + |part| + gap)
    requires BlankBetween(text, cursor, at)
    ensures BlankBetween(text, found + |part|, at + |part| + gap)
  {
    hide IsSpace;
    forall k | found + |part| <= k < at + |part| + gap ensures IsSpace(text[k]) {
      if at <= k < at + |part| {
        assert text[k] == text[at..at + |part|][k - at];
      }
    }
  }

  lemma BlankPart(text: string, part: string, cursor: nat, at: nat, gap: nat)
    requires At(text, part, at) && Blank(part)
    requires BlankBetween(text, cursor, at) && BlankBetween(text, at + |part|, at + |part| + gap)
    ensures BlankBetween(text, cursor, at + |part| + gap)
  {
    hide IsSpace;
    forall k | cursor <= k < at + |part| + gap ensures IsSpace(text[k]) {
      if at <= k < at + |part| {
        assert text[k] == text[at..at + |part|][k - at];
      }
    }
  }

  lemma SplitParagraphInOrder(para: string, paraStart: int, size: nat)
    requires size > 0
    ensures InOrder(SplitParagraph(para, paraStart, size), paraStart, paraStart + |para|, paraStart + |para|, 0)
  {
    hide IsSpace, PackSentences;
    var image := Replace(para, ". ", ".\n");
    MirrorsJoin(Split(para, ". "));
    JoinSplit(para, ". ");
    JoinSplit(image, "\n");
    SplitPartsAreClean(image, "\n");
    assert image[0..] == image;
    var sentences := Sentences(para);
    forall s | s in sentences ensures '\n' !in s {
      NoLineFeed(s);
    }
    SentencesInOrder(Packed([], "", 0), sentences, para, image, paraStart, 0, 0, size);
  }

  lemma NoLineFeed(s: string)
    requires Find(s, "\n", 0) < 0
    ensures '\n' !in s
  {
    forall i | 0 <= i < |s| ensures s[i] != '\n' {
      assert !At(s, "\n", i);
      assert s[i..i + 1] == [s[i]];
    }
  }

  // ----- Paragraphs of a text -----

  lemma PartStep(text: string, pos: nat, parts: seq<string>)
    requires pos <= |text| && parts != [] && text[pos..] == Join(parts, "\n\n")
    ensures At(text, parts[0], pos)
    ensures |parts| == 1 ==> pos + |parts[0]| == |text|
    ensures |parts| > 1 ==>
              && pos + |parts[0]| + 2 <= |text|
              && text[pos + |parts[0]| + 2..] == Join(parts[1..], "\n\n")
              && BlankBetween(text, pos + |parts[0]|, pos + |parts[0]| + 2)
  {
    hide IsSpace;
    GluesAreBlank();
    var s := parts[0];
    var tail := text[pos..];
    assert tail[..|s|] == s;
    assert text[pos..pos + |s|] == tail[..|s|];
    if |parts| > 1 {
      var rest := Join(parts[1..], "\n\n");
      assert tail == s + ("\n\n" + rest);
      assert tail[|s|..] == "\n\n" + rest;
      assert text[pos + |s|..] == "\n\n" + rest;
      assert forall k :: 0 <= k < 2 ==> text[pos + |s| + k] == ("\n\n" + rest)[k] == "\n\n"[k];
      assert text[pos + |s| + 2..] == ("\n\n" + rest)[2..] == rest;
    }
  }

  /** A paragraph is found exactly where the split cut it, if only whitespace lies before it. */
  lemma ParagraphFoundExactly(text: string, raw: string, cursor: nat, pos: nat)
    requires At(text, raw, pos) && BlankBetween(text, cursor, pos) && !Blank(raw)
    ensures Locate(text, raw, cursor) == pos
    ensures At(text, Strip(raw), pos + Lead(raw))
  {
    hide IsSpace, Strip, Lead, Blank, BlankBetween, Locate;
    LocateExact(text, raw, cursor, pos);
    SliceOfSlice(text, pos, pos + |raw|, Lead(raw), Lead(raw) + |Strip(raw)|);
  }

  /** The loop's cursor when it reaches part `k`: blank parts leave it alone. */
  function CursorAt(text: string, parts: seq<string>, k: nat): nat
    requires k <= |parts|
  {
    if k == 0 then 0
    else
      var raw, cursor := parts[k - 1], CursorAt(text, parts, k - 1);
      if Strip(raw) == "" then cursor else Locate(text, raw, cursor) + |raw|
  }

  lemma {:induction false} CursorAndCut(text: string, parts: seq<string>, k: nat)
    requires text == Join(parts, "\n\n") && k < |parts|
    ensures CutAt(parts, "\n\n", k) <= |text| && text[CutAt(parts, "\n\n", k)..] == Join(parts[k..], "\n\n")
    ensures BlankBetween(text, CursorAt(text, parts, k), CutAt(parts, "\n\n", k))
  {
    if k == 0 {
      assert text[0..] == text && parts[0..] == parts;
    } else {
      CursorAndCut(text, parts, k - 1);
      OnePartOn(text, parts, k);
    }
  }

  lemma OnePartOn(text: string, parts: seq<string>, k: nat)
    requires 0 < k < |parts|
    requires CutAt(parts, "\n\n", k - 1) <= |text| && text[CutAt(parts, "\n\n", k - 1)..] == Join(parts[k - 1..], "\n\n")
    requires BlankBetween(text, CursorAt(text, parts, k - 1), CutAt(parts, "\n\n", k - 1))
    ensures CutAt(parts, "\n\n", k) <= |text| && text[CutAt(parts, "\n\n", k)..] == Join(parts[k..], "\n\n")
    ensures BlankBetween(text, CursorAt(text, parts, k), CutAt(parts, "\n\n", k))
  {
    hide IsSpace, Strip, Lead, BlankBetween, Locate, Join, At;
    var raw, cursor, pos := parts[k - 1], CursorAt(text, parts, k - 1), CutAt(parts, "\n\n", k - 1);
    assert parts[k - 1..][0] == raw && parts[k - 1..][1..] == parts[k..];
    PartStep(text, pos, parts[k - 1..]);
    if Strip(raw) == "" {
      BlankPart(text, raw, cursor, pos, 2);
    } else {
      ParagraphFoundExactly(text, raw, cursor, pos);
    }
  }

  /** Of every text, every paragraph that is not blank is found by the loop exactly where the split cut it,
      and stripped it lies at the start the loop computes. The search never fails. */
  lemma EveryParagraphIsFound(text: string, k: nat)
    requires k < |Split(text, "\n\n")| && Strip(Split(text, "\n\n")[k]) != ""
    ensures var parts := Split(text, "\n\n");
            && Find(text, parts[k], CursorAt(text, parts, k)) == CutAt(parts, "\n\n", k)
            && At(text, Strip(parts[k]), CutAt(parts, "\n\n", k) + Lead(parts[k]))
  {
    hide *;
    JoinSplit(text, "\n\n");
    PartIsFound(text, Split(text, "\n\n"), k);
  }

  lemma PartIsFound(text: string, parts: seq<string>, k: nat)
    requires text == Join(parts, "\n\n") && k < |parts| && Strip(parts[k]) != ""
    ensures Find(text, parts[k], CursorAt(text, parts, k)) == CutAt(parts, "\n\n", k)
    ensures At(text, Strip(parts[k]), CutAt(parts, "\n\n", k) + Lead(parts[k]))
  {
    hide *;
    CursorAndCut(text, parts, k);
    FirstOfRest(parts, k);
    PartStep(text, CutAt(parts, "\n\n", k), parts[k..]);
    ParagraphFoundExactly(text, parts[k], CursorAt(text, parts, k), CutAt(parts, "\n\n", k));
    SearchSucceeds(text, parts[k], CursorAt(text, parts, k), CutAt(parts, "\n\n", k));
  }

  lemma FirstOfRest<T>(s: seq<T>, k: nat)
    requires k < |s|
    ensures s[k..] != [] && s[k..][0] == s[k]
  {}

  lemma SearchSucceeds(text: string, part: string, cursor: nat, at: nat)
    requires At(text, part, at) && cursor <= at && Locate(text, part, cursor) == at
    ensures Find(text, part, cursor) == at
  {}

  /** One paragraph of the loop. */
  lemma ParagraphStepInOrder(p: Packed, raw: string, text: string, cursor: nat, pos: nat, size: nat)
    requires size > 0 && At(text, raw, pos) && BlankBetween(text, cursor, pos) && !Blank(raw)
    requires InOrder(p, 0, cursor, pos, 2)
    ensures var start := Locate(text, raw, cursor) + Lead(raw);
            InOrder(PackStep(p, "\n\n", Strip(raw), start, size, SplitParagraph(Strip(raw), start, size)),
                    0, pos + |raw|, pos + |raw| + 2, 2)
  {
    hide IsSpace, PackStep, KeptUpTo, Find, Locate, At, InOrder, SplitParagraph;
    ParagraphFoundExactly(text, raw, cursor, pos);
    GluesAreBlank();
    var start, para := pos + Lead(raw), Strip(raw);
    var cut := SplitParagraph(para, start, size);
    SplitParagraphInOrder(para, start, size);
    InOrderWeaken(p, 0, cursor, pos, cursor, start, 2);
    PackStepInOrder(p, "\n\n", para, start, size, cut, 0, cursor, start);
    InOrderWeaken(PackStep(p, "\n\n", para, start, size, cut), 0, start + |para|, start + |para| + 2, pos + |raw|, pos + |raw| + 2, 2);
  }

  lemma {:induction false} ParagraphsInOrder(p: Packed, parts: seq<string>, text: string, cursor: nat, pos: nat, size: nat)
    requires size > 0 && parts != []
    requires pos <= |text| && text[pos..] == Join(parts, "\n\n")
    requires BlankBetween(text, cursor, pos)
    requires InOrder(p, 0, cursor, pos, 2)
    ensures InOrder(PackParagraphs(p, NonBlank(parts), text, cursor, size), 0, |text|, |text| + 2, 2)
    decreases |parts|
  {
    hide IsSpace, PackStep, Locate, At, InOrder, SplitParagraph, Join, Strip, Lead;
    var raw, rest := parts[0], parts[1..];
    PartStep(text, pos, parts);
    var q, cursor' := p, cursor;
    if Strip(raw) == "" {
      assert NonBlank(parts) == [] + NonBlank(rest) == NonBlank(rest);
      assert Blank(raw);
      InOrderWeaken(p, 0, cursor, pos, cursor, pos + |raw| + 2, 2);
      BlankPart(text, raw, cursor, pos, if |parts| > 1 then 2 else 0);
    } else {
      ParagraphStepInOrder(p, raw, text, cursor, pos, size);
      ParagraphFoundExactly(text, raw, cursor, pos);
      var start := pos + Lead(raw);
      q := PackStep(p, "\n\n", Strip(raw), start, size, SplitParagraph(Strip(raw), start, size));
      cursor' := pos + |raw|;
      assert NonBlank(parts)[0] == raw && NonBlank(parts)[1..] == NonBlank(rest);
    }
    assert PackParagraphs(p, NonBlank(parts), text, cursor, size) == PackParagraphs(q, NonBlank(rest), text, cursor', size);
    if |parts| > 1 {
      ParagraphsInOrder(q, rest, text, cursor', pos + |raw| + 2, size);
    } else {
      InOrderWeaken(q, 0, cursor', pos + |raw| + 2, |text|, |text| + 2, 2);
    }
  }

  /** The chunks of the paragraph strategy come in order, do not overlap, report spans as long as
      their text and stay inside the document. */
  lemma ParagraphSpansInOrder(text: string, size: nat)
    requires size > 0
    ensures Spans(ParagraphSpec(text, size), 0, |text|)
  {
    hide IsSpace, PackParagraphs, KeptUpTo, Split, NonBlank;
    if Strip(text) != "" {
      var parts := Split(text, "\n\n");
      JoinSplit(text, "\n\n");
      assert text[0..] == text;
      ParagraphsInOrder(Packed([], "", 0), parts, text, 0, 0, size);
      FlushInOrder(PackParagraphs(Packed([], "", 0), NonBlank(parts), text, 0, size), 0, |text|, |text| + 2, 2);
    }
  }
}
