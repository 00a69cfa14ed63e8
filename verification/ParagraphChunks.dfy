/** The paragraph strategy: pack paragraphs, then sentences, then fixed-width slices. */
module ParagraphChunks {
  import opened Text
  import opened Chunks

  /** The chunks emitted so far, and the text still being carried with its start offset. */
  datatype Packed = Packed(chunks: seq<Chunk>, carry: string, carryStart: int)

  // ----- What the three nested splitters compute -----

  /** One slice of a sentence: emitted, unless it is the last, which is carried. */
  function SliceStep(p: Packed, sentence: string, start: int, pos: nat, size: nat): Packed
    requires size > 0 && pos < |sentence|
  {
    if pos + size < |sentence|
    then p.(chunks := p.chunks + [StrippedChunk(sentence[pos..pos + size], start + pos)])
    else Packed(p.chunks, sentence[pos..], start + pos)
  }

  function SliceFrom(p: Packed, sentence: string, start: int, pos: nat, size: nat): Packed
    requires size > 0
    decreases |sentence| - pos
  {
    if pos >= |sentence| then p
    else SliceFrom(SliceStep(p, sentence, start, pos, size), sentence, start, pos + size, size)
  }

  function SliceSentence(sentence: string, start: int, size: nat): Packed
    requires size > 0
  {
    SliceFrom(Packed([], "", 0), sentence, start, 0, size)
  }

  /** Add a part to the carry when it fits, or else flush the carry and start over, with what
      `cut` leaves of a part that is too long for one chunk. */
  function PackStep(p: Packed, glue: string, part: string, start: int, size: nat, cut: Packed): Packed {
    if |p.carry| + |part| + |glue| <= size then
      if p.carry == "" then Packed(p.chunks, part, start) else p.(carry := p.carry + glue + part)
    else if |part| > size then
      Packed(p.chunks + FlushChunk(p.carry, p.carryStart) + cut.chunks, cut.carry, cut.carryStart)
    else
      Packed(p.chunks + FlushChunk(p.carry, p.carryStart), part, start)
  }

  /** Where a part is taken to start: its first occurrence at or after the cursor. */
  function Locate(text: string, part: string, cursor: nat): (start: nat)
    ensures start >= cursor
  {
    var i := Find(text, part, cursor);
    if i < 0 then cursor else i
  }

  /** `cursor` is relative to the paragraph. */
  function PackSentences(p: Packed, sentences: seq<string>, para: string, paraStart: int, cursor: nat, size: nat): Packed
    requires size > 0
    decreases |sentences|
  {
    if sentences == [] then p
    else
      var s := sentences[0];
      var rel := Locate(para, s, cursor);
      var start := paraStart + rel;
      PackSentences(PackStep(p, " ", s, start, size, SliceSentence(s, start, size)),
                    sentences[1..], para, paraStart, rel + |s|, size)
  }

  function Sentences(para: string): seq<string> {
    Split(Replace(para, ". ", ".\n"), "\n")
  }

  function SplitParagraph(para: string, paraStart: int, size: nat): Packed
    requires size > 0
  {
    PackSentences(Packed([], "", 0), Sentences(para), para, paraStart, 0, size)
  }

  function PackParagraphs(p: Packed, paragraphs: seq<string>, text: string, cursor: nat, size: nat): Packed
    requires size > 0
    decreases |paragraphs|
  {
    if paragraphs == [] then p
    else
      var raw := paragraphs[0];
      var idx := Locate(text, raw, cursor);
      var start := idx + Lead(raw);
      PackParagraphs(PackStep(p, "\n\n", Strip(raw), start, size, SplitParagraph(Strip(raw), start, size)),
                     paragraphs[1..], text, idx + |raw|, size)
  }

  /** The parts that are not blank. */
  function NonBlank(parts: seq<string>): (kept: seq<string>)
    ensures forall p :: p in kept ==> !Blank(p)
  {
    if parts == [] then []
    else (if Strip(parts[0]) == "" then [] else [parts[0]]) + NonBlank(parts[1..])
  }

  function Finish(p: Packed): seq<Chunk> {
    p.chunks + FlushChunk(p.carry, p.carryStart)
  }

  function ParagraphSpec(text: string, size: nat): seq<Chunk>
    requires size > 0
  {
    if Strip(text) == "" then []
    else Finish(PackParagraphs(Packed([], "", 0), NonBlank(Split(text, "\n\n")), text, 0, size))
  }

  // ----- The splitters -----

  /** `_split_oversized_sentence`. */
  method SplitOversizedSentence(sentence: string, sentStart: int, chunkSize: nat)
    returns (chunks: seq<Chunk>, carryText: string, carryStart: int)
    requires chunkSize > 0
    ensures Packed(chunks, carryText, carryStart) == SliceSentence(sentence, sentStart, chunkSize)
  {
    hide StrippedChunk;
    chunks, carryText, carryStart := [], "", 0;
    var pos := 0;
    while pos < |sentence|
      invariant 0 <= pos
      invariant SliceFrom(Packed(chunks, carryText, carryStart), sentence, sentStart, pos, chunkSize)
             == SliceSentence(sentence, sentStart, chunkSize)
    {
      var part := if pos + chunkSize < |sentence| then sentence[pos..pos + chunkSize] else sentence[pos..];
      var partStart := sentStart + pos;
      if pos + chunkSize < |sentence| {
        chunks := chunks + [StrippedChunk(part, partStart)];
      } else {
        carryText, carryStart := part, partStart;
      }
      pos := pos + chunkSize;
    }
  }

  /** `_split_oversized_paragraph`. */
  method SplitOversizedParagraph(para: string, paraStart: int, chunkSize: nat)
    returns (chunks: seq<Chunk>, carryText: string, carryStart: int)
    requires chunkSize > 0
    ensures Packed(chunks, carryText, carryStart) == SplitParagraph(para, paraStart, chunkSize)
  {
    hide FlushChunk, Locate, SliceSentence, Sentences;
    chunks, carryText, carryStart := [], "", 0;
    var sentences := Sentences(para);
    var subCursor := paraStart;
    var i := 0;
    assert sentences[0..] == sentences;
    while i < |sentences|
      invariant 0 <= i <= |sentences| && paraStart <= subCursor
      invariant PackSentences(Packed(chunks, carryText, carryStart), sentences[i..], para, paraStart, subCursor - paraStart, chunkSize)
             == SplitParagraph(para, paraStart, chunkSize)
    {
      var sentence := sentences[i];
      assert sentences[i..][0] == sentence && sentences[i..][1..] == sentences[i + 1..];
      var sentStart := paraStart + Locate(para, sentence, subCursor - paraStart);
      subCursor := sentStart + |sentence|;
      if |carryText| + |sentence| + 1 <= chunkSize {
        if carryText != "" {
          carryText := carryText + " " + sentence;
        } else {
          carryText, carryStart := sentence, sentStart;
        }
      } else {
        chunks := chunks + FlushChunk(carryText, carryStart);
        if |sentence| > chunkSize {
          var subChunks;
          subChunks, carryText, carryStart := SplitOversizedSentence(sentence, sentStart, chunkSize);
          chunks := chunks + subChunks;
        } else {
          carryText, carryStart := sentence, sentStart;
        }
      }
      i := i + 1;
    }
  }

  /** `_paragraph_chunks`. */
  method ParagraphChunkText(text: string, chunkSize: nat) returns (chunks: seq<Chunk>)
    requires chunkSize > 0
    ensures chunks == ParagraphSpec(text, chunkSize)
  {
    hide FlushChunk, Locate, SplitParagraph, Split, NonBlank, Lead, Strip, Blank, BlankBetween;
    chunks := [];
    if Strip(text) == "" {
      return;
    }
    var paragraphs := NonBlank(Split(text, "\n\n"));
    ghost var goal := PackParagraphs(Packed([], "", 0), paragraphs, text, 0, chunkSize);
    var cursor: nat := 0;
    var currentText, currentStart := "", 0;
    var i := 0;
    assert paragraphs[0..] == paragraphs;
    while i < |paragraphs|
      invariant 0 <= i <= |paragraphs|
      invariant PackParagraphs(Packed(chunks, currentText, currentStart), paragraphs[i..], text, cursor, chunkSize) == goal
    {
      var rawPara := paragraphs[i];
      assert paragraphs[i..][0] == rawPara && paragraphs[i..][1..] == paragraphs[i + 1..];
      var para := Strip(rawPara);
      var idx := Locate(text, rawPara, cursor);
      var paraStart := idx + Lead(rawPara);
      cursor := idx + |rawPara|;
      if |currentText| + |para| + 2 <= chunkSize {
        if currentText != "" {
          currentText := currentText + "\n\n" + para;
        } else {
          currentText, currentStart := para, paraStart;
        }
      } else {
        chunks := chunks + FlushChunk(currentText, currentStart);
        if |para| > chunkSize {
          var subChunks;
          subChunks, currentText, currentStart := SplitOversizedParagraph(para, paraStart, chunkSize);
          chunks := chunks + subChunks;
        } else {
          currentText, currentStart := para, paraStart;
        }
      }
      i := i + 1;
    }
    chunks := chunks + FlushChunk(currentText, currentStart);
  }

  // ----- Content -----

  /** The ink emitted and carried so far. */
  ghost function PackedInk(p: Packed): string {
    ChunkInk(p.chunks) + Ink(p.carry)
  }

  lemma FlushKeepsInk(chunks: seq<Chunk>, current: string, start: int)
    ensures ChunkInk(chunks + FlushChunk(current, start)) == ChunkInk(chunks) + Ink(current)
  {
    if Strip(current) == "" {
      InkOfBlank(current);
      assert chunks + [] == chunks;
    } else {
      ChunkInkOne(StrippedChunk(current, start));
      InkOfStrip(current);
      ChunkInkAppend(chunks, FlushChunk(current, start));
    }
  }

  lemma InkOfNothing()
    ensures Ink("") == "" && ChunkInk([]) == ""
  {
    assert Texts([]) == [];
  }

  lemma GluesAreBlank()
    ensures Blank(" ") && Blank("\n") && Blank("\n\n")
  {}

  lemma Assoc(a: string, b: string, c: string)
    ensures a + b + c == a + (b + c)
  {}

  lemma GluedInk(a: string, glue: string, b: string)
    requires Blank(glue)
    ensures Ink(a + glue + b) == Ink(a) + Ink(b)
  {
    InkOfBlank(glue);
    InkAppend(a + glue, b);
    InkAppend(a, glue);
  }

  lemma FlushedInk(p: Packed, cut: Packed)
    ensures PackedInk(Packed(p.chunks + FlushChunk(p.carry, p.carryStart) + cut.chunks, cut.carry, cut.carryStart))
         == PackedInk(p) + PackedInk(cut)
  {
    hide FlushChunk, ChunkInk, Ink;
    var flushed := p.chunks + FlushChunk(p.carry, p.carryStart);
    FlushKeepsInk(p.chunks, p.carry, p.carryStart);
    ChunkInkAppend(flushed, cut.chunks);
    Assoc(ChunkInk(flushed), ChunkInk(cut.chunks), Ink(cut.carry));
  }

  lemma CarriedInk(p: Packed, glue: string, part: string)
    requires Blank(glue)
    ensures PackedInk(p.(carry := p.carry + glue + part)) == PackedInk(p) + Ink(part)
  {
    hide ChunkInk, Ink, Blank;
    GluedInk(p.carry, glue, part);
    Assoc(ChunkInk(p.chunks), Ink(p.carry), Ink(part));
  }

  lemma OpenedInk(chunks: seq<Chunk>, part: string, start: int)
    ensures PackedInk(Packed(chunks, part, start)) == ChunkInk(chunks) + Ink(part)
  {}

  lemma EmptyCarryInk(p: Packed)
    requires p.carry == ""
    ensures PackedInk(p) == ChunkInk(p.chunks)
  {
    hide ChunkInk;
    InkOfNothing();
  }

  lemma RestartedInk(p: Packed, part: string, start: int)
    ensures PackedInk(Packed(p.chunks + FlushChunk(p.carry, p.carryStart), part, start)) == PackedInk(p) + Ink(part)
  {
    hide FlushChunk, ChunkInk, Ink;
    FlushKeepsInk(p.chunks, p.carry, p.carryStart);
  }

  /** Adding a part adds its ink, whichever branch is taken. */
  lemma PackStepKeepsInk(p: Packed, glue: string, part: string, start: int, size: nat, cut: Packed)
    requires Blank(glue) && (|part| > size ==> PackedInk(cut) == Ink(part))
    ensures PackedInk(PackStep(p, glue, part, start, size, cut)) == PackedInk(p) + Ink(part)
  {
    hide PackedInk, FlushChunk, Ink, Blank, ChunkInk;
    if |p.carry| + |part| + |glue| <= size {
      if p.carry == "" {
        OpenedInk(p.chunks, part, start);
        EmptyCarryInk(p);
      } else {
        CarriedInk(p, glue, part);
      }
    } else if |part| > size {
      FlushedInk(p, cut);
    } else {
      RestartedInk(p, part, start);
    }
  }

  lemma {:induction false} SliceFromKeepsInk(p: Packed, sentence: string, start: int, pos: nat, size: nat)
    requires size > 0 && pos < |sentence| && p.carry == ""
    ensures PackedInk(SliceFrom(p, sentence, start, pos, size)) == ChunkInk(p.chunks) + Ink(sentence[pos..])
    decreases |sentence| - pos
  {
    hide IsSpace, ChunkInk, StrippedChunk, Ink;
    if pos + size < |sentence| {
      var part := sentence[pos..pos + size];
      SliceFromKeepsInk(SliceStep(p, sentence, start, pos, size), sentence, start, pos + size, size);
      StrippedInk(part, start + pos);
      ChunkInkAppend(p.chunks, [StrippedChunk(part, start + pos)]);
      InkAppend(part, sentence[pos + size..]);
      assert sentence[pos..] == part + sentence[pos + size..];
    }
  }

  lemma StrippedInk(part: string, start: int)
    ensures ChunkInk([StrippedChunk(part, start)]) == Ink(part)
  {
    ChunkInkOne(StrippedChunk(part, start));
    InkOfStrip(part);
  }

  lemma {:induction false} PackSentencesKeepsInk(p: Packed, sentences: seq<string>, para: string, paraStart: int, cursor: nat, size: nat)
    requires size > 0
    ensures PackedInk(PackSentences(p, sentences, para, paraStart, cursor, size)) == PackedInk(p) + Ink(Concat(sentences))
    decreases |sentences|
  {
    hide IsSpace, Ink, PackedInk, PackStep, SliceSentence;
    if sentences == [] {
      InkOfNothing();
    } else {
      var s := sentences[0];
      var rel := Locate(para, s, cursor);
      var cut := SliceSentence(s, paraStart + rel, size);
      GluesAreBlank();
      SliceSentenceKeepsInk(s, paraStart + rel, size);
      PackStepKeepsInk(p, " ", s, paraStart + rel, size, cut);
      PackSentencesKeepsInk(PackStep(p, " ", s, paraStart + rel, size, cut), sentences[1..], para, paraStart, rel + |s|, size);
      InkAppend(s, Concat(sentences[1..]));
    }
  }

  lemma SliceSentenceKeepsInk(s: string, start: int, size: nat)
    requires size > 0
    ensures PackedInk(SliceSentence(s, start, size)) == Ink(s)
  {
    InkOfNothing();
    if s != "" {
      assert s[0..] == s;
      SliceFromKeepsInk(Packed([], "", 0), s, start, 0, size);
    }
  }

  lemma SentencesKeepInk(para: string)
    ensures Ink(Concat(Sentences(para))) == Ink(para)
  {
    hide IsSpace;
    GluesAreBlank();
    InkOfJoin(Sentences(para), "\n");
    JoinSplit(Replace(para, ". ", ".\n"), "\n");
    InkAppend(".", " ");
    InkAppend(".", "\n");
    InkOfBlank(" ");
    InkOfBlank("\n");
    assert ". " == "." + " " && ".\n" == "." + "\n";
    InkOfSwappedSeparator(Split(para, ". "), ". ", ".\n");
    JoinSplit(para, ". ");
  }

  lemma SplitParagraphKeepsInk(para: string, paraStart: int, size: nat)
    requires size > 0
    ensures PackedInk(SplitParagraph(para, paraStart, size)) == Ink(para)
  {
    InkOfNothing();
    PackSentencesKeepsInk(Packed([], "", 0), Sentences(para), para, paraStart, 0, size);
    SentencesKeepInk(para);
  }

  lemma {:induction false} PackParagraphsKeepsInk(p: Packed, paragraphs: seq<string>, text: string, cursor: nat, size: nat)
    requires size > 0
    ensures PackedInk(PackParagraphs(p, paragraphs, text, cursor, size)) == PackedInk(p) + Ink(Concat(paragraphs))
    decreases |paragraphs|
  {
    hide IsSpace, Ink, PackedInk, PackStep, SplitParagraph, Strip, Lead, Locate;
    if paragraphs == [] {
      InkOfNothing();
    } else {
      var raw := paragraphs[0];
      var idx := Locate(text, raw, cursor);
      var start := idx + Lead(raw);
      var cut := SplitParagraph(Strip(raw), start, size);
      GluesAreBlank();
      InkOfStrip(raw);
      SplitParagraphKeepsInk(Strip(raw), start, size);
      PackStepKeepsInk(p, "\n\n", Strip(raw), start, size, cut);
      PackParagraphsKeepsInk(PackStep(p, "\n\n", Strip(raw), start, size, cut), paragraphs[1..], text, idx + |raw|, size);
      InkAppend(raw, Concat(paragraphs[1..]));
    }
  }

  lemma {:induction false} NonBlankKeepsInk(parts: seq<string>)
    ensures Ink(Concat(NonBlank(parts))) == Ink(Concat(parts))
  {
    hide IsSpace;
    if parts != [] {
      NonBlankKeepsInk(parts[1..]);
      InkAppend(parts[0], Concat(parts[1..]));
      InkOfBlank(parts[0]);
      var kept := NonBlank(parts[1..]);
      if Strip(parts[0]) == "" {
        assert [] + kept == kept;
      } else {
        assert ([parts[0]] + kept)[1..] == kept;
        InkAppend(parts[0], Concat(kept));
      }
    }
  }

  /** The paragraph strategy loses no ink and invents none. */
  lemma ParagraphChunksKeepInk(text: string, size: nat)
    requires size > 0
    ensures ChunkInk(ParagraphSpec(text, size)) == Ink(text)
  {
    hide IsSpace, ChunkInk, FlushChunk;
    InkOfNothing();
    if Strip(text) == "" {
      InkOfBlank(text);
    } else {
      var parts := Split(text, "\n\n");
      var p := PackParagraphs(Packed([], "", 0), NonBlank(parts), text, 0, size);
      PackParagraphsKeepsInk(Packed([], "", 0), NonBlank(parts), text, 0, size);
      FlushKeepsInk(p.chunks, p.carry, p.carryStart);
      NonBlankKeepsInk(parts);
      GluesAreBlank();
      InkOfJoin(parts, "\n\n");
      JoinSplit(text, "\n\n");
    }
  }

  // ----- Size -----

  predicate Fits(p: Packed, size: nat) {
    AllWithin(p.chunks, size) && |p.carry| <= size
  }

  lemma PackStepFits(p: Packed, glue: string, part: string, start: int, size: nat, cut: Packed)
    requires Fits(p, size) && (|part| > size ==> Fits(cut, size))
    ensures Fits(PackStep(p, glue, part, start, size, cut), size)
  {}

  lemma SliceStepFits(p: Packed, sentence: string, start: int, pos: nat, size: nat)
    requires size > 0 && Fits(p, size) && pos < |sentence|
    ensures Fits(SliceStep(p, sentence, start, pos, size), size)
  {
    hide IsSpace, Strip, Lead;
  }

  lemma {:induction false} SliceFromFits(p: Packed, sentence: string, start: int, pos: nat, size: nat)
    requires size > 0 && Fits(p, size)
    ensures Fits(SliceFrom(p, sentence, start, pos, size), size)
    decreases |sentence| - pos
  {
    hide Fits, SliceStep;
    if pos < |sentence| {
      SliceStepFits(p, sentence, start, pos, size);
      SliceFromFits(SliceStep(p, sentence, start, pos, size), sentence, start, pos + size, size);
    }
  }

  lemma {:induction false} PackSentencesFits(p: Packed, sentences: seq<string>, para: string, paraStart: int, cursor: nat, size: nat)
    requires size > 0 && Fits(p, size)
    ensures Fits(PackSentences(p, sentences, para, paraStart, cursor, size), size)
    decreases |sentences|
  {
    hide PackStep, Fits, IsSpace, Locate, SliceFrom;
    if sentences != [] {
      var s := sentences[0];
      var rel := Locate(para, s, cursor);
      var cut := SliceSentence(s, paraStart + rel, size);
      EmptyFits(size);
      SliceFromFits(Packed([], "", 0), s, paraStart + rel, 0, size);
      PackStepFits(p, " ", s, paraStart + rel, size, cut);
      PackSentencesFits(PackStep(p, " ", s, paraStart + rel, size, cut), sentences[1..], para, paraStart, rel + |s|, size);
    }
  }

  lemma EmptyFits(size: nat)
    ensures Fits(Packed([], "", 0), size)
  {}

  lemma SplitParagraphFits(para: string, paraStart: int, size: nat)
    requires size > 0
    ensures Fits(SplitParagraph(para, paraStart, size), size)
  {
    hide PackSentences, Fits;
    EmptyFits(size);
    PackSentencesFits(Packed([], "", 0), Sentences(para), para, paraStart, 0, size);
  }

  lemma {:induction false} PackParagraphsFits(p: Packed, paragraphs: seq<string>, text: string, cursor: nat, size: nat)
    requires size > 0 && Fits(p, size)
    ensures Fits(PackParagraphs(p, paragraphs, text, cursor, size), size)
    decreases |paragraphs|
  {
    hide PackStep, Fits, IsSpace, Strip, Lead, Locate, SplitParagraph;
    if paragraphs != [] {
      var raw := paragraphs[0];
      var idx := Locate(text, raw, cursor);
      var start := idx + Lead(raw);
      var cut := SplitParagraph(Strip(raw), start, size);
      SplitParagraphFits(Strip(raw), start, size);
      PackStepFits(p, "\n\n", Strip(raw), start, size, cut);
      PackParagraphsFits(PackStep(p, "\n\n", Strip(raw), start, size, cut), paragraphs[1..], text, idx + |raw|, size);
    }
  }

  lemma ParagraphChunksFit(text: string, size: nat)
    requires size > 0
    ensures AllWithin(ParagraphSpec(text, size), size)
  {
    if Strip(text) != "" {
      PackParagraphsFits(Packed([], "", 0), NonBlank(Split(text, "\n\n")), text, 0, size);
    }
  }
}
