/** Chunking loses no word, respects the cap, keeps headings, and never splits what would have fit. */
module MarkdownLaws {
  import opened Options
  import opened Text
  import opened Markdown

  // ----- words of pieces -----

  function PieceWords(p: Piece): seq<string> {
    match p
    case Packed(blocks) => AllWords(blocks)
    case Slice(words) => words
  }

  function AllPieceWords(pieces: seq<Piece>): seq<string> {
    if pieces == [] then [] else PieceWords(pieces[0]) + AllPieceWords(pieces[1..])
  }

  predicate OfWords(p: Piece) {
    p.Slice? ==> forall w :: w in p.words ==> IsWord(w)
  }

  lemma {:induction false} AllPieceWordsConcat(xs: seq<Piece>, ys: seq<Piece>)
    ensures AllPieceWords(xs + ys) == AllPieceWords(xs) + AllPieceWords(ys)
  {
    if xs == [] {
      assert xs + ys == ys;
    } else {
      AllPieceWordsConcat(xs[1..], ys);
      assert (xs + ys)[0] == xs[0] && (xs + ys)[1..] == xs[1..] + ys;
      Assoc(PieceWords(xs[0]), AllPieceWords(xs[1..]), AllPieceWords(ys));
    }
  }

  lemma SinglePieceWords(p: Piece)
    ensures AllPieceWords([p]) == PieceWords(p)
  {
    assert AllPieceWords([p][1..]) == [];
  }

  /** The text of a piece has the piece's words. */
  lemma RenderKeepsWords(p: Piece)
    requires OfWords(p)
    ensures Words(Render(p)) == PieceWords(p)
  {
    match p
    case Packed(blocks) =>
      StripKeepsWords(Join(blocks, "\n\n"));
      JoinKeepsWords(blocks, "\n\n");
    case Slice(words) =>
      SplitOfJoinedWords(words, " ");
  }

  lemma {:induction false} SlicesKeepWords(words: seq<string>, i: nat, max: nat)
    requires max >= 1 && i <= |words|
    requires forall w :: w in words ==> IsWord(w)
    ensures AllPieceWords(SlicesFrom(words, i, max)) == words[i..]
    ensures forall p :: p in SlicesFrom(words, i, max) ==> p.Slice? && OfWords(p) && |p.words| <= max
    ensures i < |words| ==> SlicesFrom(words, i, max) != []
  {
    SlicesCover(words, i, max);
    SlicesFit(words, i, max);
  }

  lemma {:induction false} SlicesCover(words: seq<string>, i: nat, max: nat)
    requires max >= 1 && i <= |words|
    ensures AllPieceWords(SlicesFrom(words, i, max)) == words[i..]
    decreases |words| - i
  {
    if i < |words| {
      var end := SliceEnd(words, i, max);
      var rest := SlicesFrom(words, i + max, max);
      if i + max <= |words| {
        SlicesCover(words, i + max, max);
      } else {
        assert rest == [] && words[end..] == [];
      }
      assert AllPieceWords(rest) == words[end..];
      FirstPiece(Slice(words[i..end]), rest);
      assert words[i..] == words[i..end] + words[end..];
    }
  }

  lemma {:induction false} SlicesFit(words: seq<string>, i: nat, max: nat)
    requires max >= 1
    requires forall w :: w in words ==> IsWord(w)
    ensures forall p :: p in SlicesFrom(words, i, max) ==> p.Slice? && OfWords(p) && |p.words| <= max
    decreases |words| - i
  {
    if i < |words| {
      SlicesFit(words, i + max, max);
      assert forall w :: w in words[i..SliceEnd(words, i, max)] ==> w in words;
    }
  }

  lemma FirstPiece(p: Piece, rest: seq<Piece>)
    ensures AllPieceWords([p] + rest) == PieceWords(p) + AllPieceWords(rest)
  {
    assert ([p] + rest)[0] == p && ([p] + rest)[1..] == rest;
  }

  /** A block adds its words to the finished pieces or to the collected paragraphs. */
  lemma BlockKeepsWords(block: string, para: seq<string>, max: nat)
    requires max >= 1
    ensures AllPieceWords(BlockPieces(block, para, max)) + AllWords(BlockPara(block, para, max)) == AllWords(para) + Words(block)
  {
    var words := Words(block);
    if |words| > max {
      WordsAreWords(block);
      SlicesKeepWords(words, 0, max);
      AllPieceWordsConcat(PackedPara(para), Slices(words, max));
      if para != [] { SinglePieceWords(Packed(para)); }
      assert words[0..] == words;
    } else {
      AllWordsOfOne(block);
      if |AllWords(para)| + |words| > max && para != [] {
        SinglePieceWords(Packed(para));
      } else {
        AllWordsOfConcat(para, [block]);
      }
    }
  }

  lemma AllWordsOfOne(block: string)
    ensures AllWords([block]) == Words(block)
  {
    assert AllWords([block][1..]) == [];
  }

  /** Packing keeps every word, in order. */
  lemma {:induction false} PackKeepsWords(blocks: seq<string>, para: seq<string>, max: nat)
    requires max >= 1
    ensures AllPieceWords(Pack(blocks, para, max)) == AllWords(para) + AllWords(blocks)
  {
    if blocks == [] {
      if para != [] { SinglePieceWords(Packed(para)); }
    } else {
      var done, next := BlockPieces(blocks[0], para, max), BlockPara(blocks[0], para, max);
      var rest := Pack(blocks[1..], next, max);
      PackKeepsWords(blocks[1..], next, max);
      BlockKeepsWords(blocks[0], para, max);
      PackByBlock(blocks, para, max);
      AllPieceWordsConcat(done, rest);
      Regroup(AllPieceWords(done), AllWords(next), AllWords(para), Words(blocks[0]), AllWords(blocks[1..]));
    }
  }

  lemma Regroup<T>(a: seq<T>, b: seq<T>, c: seq<T>, d: seq<T>, rest: seq<T>)
    requires a + b == c + d
    ensures a + (b + rest) == c + (d + rest)
  {
    Assoc(a, b, rest);
    Assoc(c, d, rest);
  }

  /** A piece within the cap, made of words. */
  predicate Fits(p: Piece, max: nat) {
    OfWords(p) && |PieceWords(p)| <= max
  }

  lemma BlockFits(block: string, para: seq<string>, max: nat)
    requires max >= 1 && |AllWords(para)| <= max
    ensures |AllWords(BlockPara(block, para, max))| <= max
    ensures forall p :: p in BlockPieces(block, para, max) ==> Fits(p, max)
  {
    var words := Words(block);
    if |words| > max {
      WordsAreWords(block);
      SlicesKeepWords(words, 0, max);
    } else {
      AllWordsOfOne(block);
      AllWordsOfConcat(para, [block]);
    }
  }

  /** No piece exceeds the cap. */
  lemma {:induction false} PackFits(blocks: seq<string>, para: seq<string>, max: nat)
    requires max >= 1 && |AllWords(para)| <= max
    ensures forall p :: p in Pack(blocks, para, max) ==> Fits(p, max)
  {
    if blocks != [] {
      BlockFits(blocks[0], para, max);
      PackByBlock(blocks, para, max);
      PackFits(blocks[1..], BlockPara(blocks[0], para, max), max);
    }
  }

  // ----- no needless split -----

  /** Two neighbouring packed chunks, with no hard split between them, do not fit in one. */
  ghost predicate Tight(pieces: seq<Piece>, max: nat) {
    forall i :: 0 <= i < |pieces| - 1 && pieces[i].Packed? && pieces[i + 1].Packed? ==>
      |PieceWords(pieces[i])| + |PieceWords(pieces[i + 1])| > max
  }

  /** The first piece contains the paragraphs already collected. */
  lemma {:induction false} FirstPieceHoldsPara(blocks: seq<string>, para: seq<string>, max: nat)
    requires max >= 1 && para != []
    ensures Pack(blocks, para, max) != [] && Pack(blocks, para, max)[0].Packed?
    ensures |PieceWords(Pack(blocks, para, max)[0])| >= |AllWords(para)|
  {
    if blocks != [] {
      CountOneMore(para, blocks[0]);
      if |Words(blocks[0])| <= max && !(|AllWords(para)| + |Words(blocks[0])| > max) {
        FirstPieceHoldsPara(blocks[1..], para + [blocks[0]], max);
      }
    }
  }

  lemma {:induction false} PackIsTight(blocks: seq<string>, para: seq<string>, max: nat)
    requires max >= 1
    ensures Tight(Pack(blocks, para, max), max)
  {
    if blocks != [] {
      var words := Words(blocks[0]);
      if |words| > max {
        PackIsTight(blocks[1..], [], max);
        WordsAreWords(blocks[0]);
        SlicesKeepWords(words, 0, max);
        TightAfterSlices(PackedPara(para), Slices(words, max), Pack(blocks[1..], [], max), max);
      } else if |AllWords(para)| + |words| > max && para != [] {
        PackIsTight(blocks[1..], [blocks[0]], max);
        FirstPieceHoldsPara(blocks[1..], [blocks[0]], max);
        assert AllWords([blocks[0]]) == words + AllWords([blocks[0]][1..]);
        var rest := Pack(blocks[1..], [blocks[0]], max);
        assert forall i :: 0 <= i < |rest| ==> ([Packed(para)] + rest)[i + 1] == rest[i];
      } else {
        PackIsTight(blocks[1..], para + [blocks[0]], max);
      }
    }
  }

  lemma TightAfterSlices(first: seq<Piece>, slices: seq<Piece>, rest: seq<Piece>, max: nat)
    requires |first| <= 1 && slices != [] && (forall p :: p in slices ==> p.Slice?) && Tight(rest, max)
    ensures Tight(first + slices + rest, max)
  {
    var all := first + slices + rest;
    var n := |first| + |slices|;
    forall i | 0 <= i < |all| - 1 && all[i].Packed? && all[i + 1].Packed?
      ensures |PieceWords(all[i])| + |PieceWords(all[i + 1])| > max
    {
      assert forall k :: |first| <= k < n ==> all[k] == slices[k - |first|] && all[k] in slices;
      assert i >= n;
      assert all[i] == rest[i - n] && all[i + 1] == rest[i + 1 - n];
    }
  }

  // ----- the chunks of a document -----

  type Tagged = (Option<string>, string)

  /** Words with the heading they stand under. */
  function Tag(heading: Option<string>, words: seq<string>): seq<Tagged> {
    seq(|words|, i requires 0 <= i < |words| => (heading, words[i]))
  }

  function TaggedChunks(chunks: seq<Chunk>): seq<Tagged> {
    if chunks == [] then [] else Tag(chunks[0].heading, Words(chunks[0].text)) + TaggedChunks(chunks[1..])
  }

  /** The words of the non-heading lines of a document, each with the last heading before it. */
  function TaggedLines(lines: seq<string>, heading: Option<string>): seq<Tagged> {
    if lines == [] then []
    else if IsHeading(lines[0]) then TaggedLines(lines[1..], HeadingText(lines[0]))
    else Tag(heading, Words(lines[0])) + TaggedLines(lines[1..], heading)
  }

  function TaggedSections(sections: seq<Section>): seq<Tagged> {
    if sections == [] then [] else TaggedSection(sections[0]) + TaggedSections(sections[1..])
  }

  function TaggedSection(s: Section): seq<Tagged> {
    Tag(s.heading, AllWords(s.lines))
  }

  lemma {:induction false} TaggedChunksConcat(xs: seq<Chunk>, ys: seq<Chunk>)
    ensures TaggedChunks(xs + ys) == TaggedChunks(xs) + TaggedChunks(ys)
  {
    if xs == [] {
      assert xs + ys == ys;
    } else {
      TaggedChunksConcat(xs[1..], ys);
      assert (xs + ys)[1..] == xs[1..] + ys && (xs + ys)[0] == xs[0];
      Assoc(Tag(xs[0].heading, Words(xs[0].text)), TaggedChunks(xs[1..]), TaggedChunks(ys));
    }
  }

  lemma TagConcat(heading: Option<string>, xs: seq<string>, ys: seq<string>)
    ensures Tag(heading, xs + ys) == Tag(heading, xs) + Tag(heading, ys)
  {
  }

  lemma {:induction false} BlankLinesHaveNoWords(lines: seq<string>)
    requires forall i :: 0 <= i < |lines| ==> Strip(lines[i]) == ""
    ensures AllWords(lines) == []
  {
    if lines != [] {
      StripKeepsWords(lines[0]);
      BlankLinesHaveNoWords(lines[1..]);
    }
  }

  lemma FlushKeepsWords(heading: Option<string>, buffer: seq<string>)
    ensures TaggedSections(Flushed(heading, buffer)) == Tag(heading, AllWords(buffer))
  {
    if Flushed(heading, buffer) == [] {
      BlankLinesHaveNoWords(buffer);
    } else {
      assert TaggedSections([Section(heading, buffer)][1..]) == [];
    }
  }

  lemma {:induction false} TaggedSectionsConcat(xs: seq<Section>, ys: seq<Section>)
    ensures TaggedSections(xs + ys) == TaggedSections(xs) + TaggedSections(ys)
  {
    if xs == [] {
      assert xs + ys == ys;
    } else {
      TaggedSectionsConcat(xs[1..], ys);
      assert (xs + ys)[0] == xs[0] && (xs + ys)[1..] == xs[1..] + ys;
      Assoc(TaggedSection(xs[0]), TaggedSections(xs[1..]), TaggedSections(ys));
    }
  }

  /** Splitting into sections keeps every word of the non-heading lines under its heading. */
  lemma {:induction false} SectionsKeepWords(lines: seq<string>, heading: Option<string>, buffer: seq<string>)
    ensures TaggedSections(Sections(lines, heading, buffer)) == Tag(heading, AllWords(buffer)) + TaggedLines(lines, heading)
  {
    FlushKeepsWords(heading, buffer);
    if lines == [] {
    } else if IsHeading(lines[0]) {
      var flushed, next := Flushed(heading, buffer), Sections(lines[1..], HeadingText(lines[0]), []);
      SectionsKeepWords(lines[1..], HeadingText(lines[0]), []);
      calc {
        TaggedSections(Sections(lines, heading, buffer));
      ==
        TaggedSections(flushed + next);
      == { TaggedSectionsConcat(flushed, next); }
        Tag(heading, AllWords(buffer)) + TaggedSections(next);
      == { assert Tag(HeadingText(lines[0]), AllWords([])) == []; }
        Tag(heading, AllWords(buffer)) + ([] + TaggedLines(lines, heading));
      == { assert [] + TaggedLines(lines, heading) == TaggedLines(lines, heading); }
        Tag(heading, AllWords(buffer)) + TaggedLines(lines, heading);
      }
    } else {
      var rest := TaggedLines(lines[1..], heading);
      SectionsKeepWords(lines[1..], heading, buffer + [lines[0]]);
      TagOneMoreLine(heading, buffer, lines[0]);
      Assoc(Tag(heading, AllWords(buffer)), Tag(heading, Words(lines[0])), rest);
    }
  }

  lemma TagOneMoreLine(heading: Option<string>, buffer: seq<string>, line: string)
    ensures Tag(heading, AllWords(buffer + [line])) == Tag(heading, AllWords(buffer)) + Tag(heading, Words(line))
  {
    AllWordsOfConcat(buffer, [line]);
    AllWordsOfOne(line);
    TagConcat(heading, AllWords(buffer), Words(line));
  }

  lemma {:induction false} RenderedKeepsWords(heading: Option<string>, pieces: seq<Piece>)
    requires forall p :: p in pieces ==> OfWords(p)
    ensures TaggedChunks(Rendered(heading, pieces)) == Tag(heading, AllPieceWords(pieces))
  {
    if pieces != [] {
      var n := |pieces| - 1;
      var last := Chunk(heading, Render(pieces[n]));
      RenderedKeepsWords(heading, pieces[..n]);
      RenderKeepsWords(pieces[n]);
      assert pieces == pieces[..n] + [pieces[n]];
      AllPieceWordsConcat(pieces[..n], [pieces[n]]);
      SinglePieceWords(pieces[n]);
      TaggedChunksConcat(Rendered(heading, pieces[..n]), [last]);
      assert TaggedChunks([last]) == Tag(heading, Words(last.text)) + TaggedChunks([last][1..]);
      TagConcat(heading, AllPieceWords(pieces[..n]), PieceWords(pieces[n]));
    }
  }

  lemma BodyKeepsWords(s: Section)
    ensures Words(Body(s)) == AllWords(s.lines)
  {
    StripKeepsWords(Join(s.lines, "\n"));
    JoinKeepsWords(s.lines, "\n");
  }

  lemma SectionChunksKeepWords(s: Section, max: nat)
    requires max >= 1
    ensures TaggedChunks(SectionChunks(s, max)) == Tag(s.heading, AllWords(s.lines))
  {
    BodyKeepsWords(s);
    if Body(s) != "" {
      if |Words(Body(s))| <= max {
        var chunk := Chunk(s.heading, Body(s));
        assert TaggedChunks([chunk]) == Tag(s.heading, Words(chunk.text)) + TaggedChunks([chunk][1..]);
      } else {
        SplitBlankKeepsWords(Body(s));
        PackKeepsWords(SplitBlank(Body(s)), [], max);
        PackFits(SplitBlank(Body(s)), [], max);
        RenderedKeepsWords(s.heading, Pack(SplitBlank(Body(s)), [], max));
      }
    }
  }

  lemma {:induction false} AllChunksKeepWords(sections: seq<Section>, max: nat)
    requires max >= 1
    ensures TaggedChunks(AllChunks(sections, max)) == TaggedSections(sections)
  {
    if sections != [] {
      SectionChunksKeepWords(sections[0], max);
      AllChunksKeepWords(sections[1..], max);
      TaggedChunksConcat(SectionChunks(sections[0], max), AllChunks(sections[1..], max));
    }
  }

  /**
   Conservation: the words of all chunks, in order and each with its chunk's heading, are the
   words of the document's non-heading lines, in order and each under its section's heading.
   */
  lemma ChunksConserveWords(text: string, max: nat)
    requires max >= 1
    ensures TaggedChunks(Chunks(text, max)) == TaggedLines(SplitLines(text), None)
  {
    SectionsKeepWords(SplitLines(text), None, []);
    AllChunksKeepWords(Sections(SplitLines(text), None, []), max);
  }

  /** For a document without headings these are simply all its words. */
  lemma {:induction false} TaggedLinesAreAllWords(lines: seq<string>, heading: Option<string>)
    requires forall i :: 0 <= i < |lines| ==> !IsHeading(lines[i])
    ensures TaggedLines(lines, heading) == Tag(heading, AllWords(lines))
  {
    if lines != [] {
      TaggedLinesAreAllWords(lines[1..], heading);
      TagConcat(heading, Words(lines[0]), AllWords(lines[1..]));
    }
  }

  lemma {:induction false} RenderedAt(heading: Option<string>, pieces: seq<Piece>)
    ensures |Rendered(heading, pieces)| == |pieces|
    ensures forall i :: 0 <= i < |pieces| ==> Rendered(heading, pieces)[i] == Chunk(heading, Render(pieces[i]))
  {
    if pieces != [] {
      var n := |pieces| - 1;
      var before := Rendered(heading, pieces[..n]);
      RenderedAt(heading, pieces[..n]);
      forall i | 0 <= i < n ensures Rendered(heading, pieces)[i] == Chunk(heading, Render(pieces[i])) {
        assert Rendered(heading, pieces)[i] == before[i] && pieces[..n][i] == pieces[i];
      }
    }
  }

  lemma RenderedRespectsCap(heading: Option<string>, pieces: seq<Piece>, max: nat)
    requires forall p :: p in pieces ==> Fits(p, max)
    ensures forall c :: c in Rendered(heading, pieces) ==> |Words(c.text)| <= max
  {
    RenderedAt(heading, pieces);
    forall c | c in Rendered(heading, pieces) ensures |Words(c.text)| <= max {
      var i :| 0 <= i < |pieces| && Rendered(heading, pieces)[i] == c;
      assert Fits(pieces[i], max);
      RenderKeepsWords(pieces[i]);
    }
  }

  lemma {:induction false} AllChunksRespectCap(sections: seq<Section>, max: nat)
    requires max >= 1
    ensures forall c :: c in AllChunks(sections, max) ==> |Words(c.text)| <= max
  {
    if sections != [] {
      AllChunksRespectCap(sections[1..], max);
      var body := Body(sections[0]);
      if |Words(body)| > max {
        PackFits(SplitBlank(body), [], max);
        RenderedRespectsCap(sections[0].heading, Pack(SplitBlank(body), [], max), max);
      }
    }
  }

  /** No chunk of a document has more than max words. */
  lemma ChunksRespectCap(text: string, max: nat)
    requires max >= 1
    ensures forall c :: c in Chunks(text, max) ==> |Words(c.text)| <= max
  {
    AllChunksRespectCap(Sections(SplitLines(text), None, []), max);
  }

  /** Within an oversized section, two neighbouring packed chunks together exceed the cap. */
  lemma PackedChunksCannotMerge(s: Section, max: nat, i: nat)
    requires max >= 1 && |Words(Body(s))| > max
    requires var pieces := Pack(SplitBlank(Body(s)), [], max);
      i + 1 < |pieces| && pieces[i].Packed? && pieces[i + 1].Packed?
    ensures var chunks := SectionChunks(s, max);
      i + 1 < |chunks| && |Words(chunks[i].text)| + |Words(chunks[i + 1].text)| > max
  {
    var pieces := Pack(SplitBlank(Body(s)), [], max);
    PackIsTight(SplitBlank(Body(s)), [], max);
    PackFits(SplitBlank(Body(s)), [], max);
    RenderedAt(s.heading, pieces);
    assert pieces[i] in pieces && pieces[i + 1] in pieces;
    RenderKeepsWords(pieces[i]);
    RenderKeepsWords(pieces[i + 1]);
  }

  // ----- chunks without text -----

  predicate Oversized(block: string, max: nat) {
    |Words(block)| > max
  }

  predicate Wordless(block: string) {
    Words(block) == []
  }

  /** Up to block j there are no words, and there the collected paragraphs are flushed. */
  predicate WordlessUpTo(blocks: seq<string>, j: nat, max: nat) {
    && j <= |blocks|
    && (forall k :: 0 <= k < j ==> Wordless(blocks[k]))
    && (j < |blocks| ==> Oversized(blocks[j], max))
  }

  /** Blocks i and j are oversized (j may be the end), with wordless blocks between them and at least one. */
  predicate BlankGap(blocks: seq<string>, i: nat, j: nat, max: nat) {
    && i + 1 < j <= |blocks| && Oversized(blocks[i], max)
    && (forall k :: i < k < j ==> Wordless(blocks[k]))
    && (j < |blocks| ==> Oversized(blocks[j], max))
  }

  predicate BlankPiece(p: Piece) {
    PieceWords(p) == []
  }

  ghost predicate HasBlank(pieces: seq<Piece>) {
    exists p :: p in pieces && BlankPiece(p)
  }

  ghost predicate HasGap(blocks: seq<string>, max: nat) {
    exists i: nat, j: nat :: BlankGap(blocks, i, j, max)
  }

  /** The collected paragraphs have no words, and no word comes before they are flushed. */
  ghost predicate StartsBlank(blocks: seq<string>, para: seq<string>, max: nat) {
    AllWords(para) == [] && exists j: nat :: WordlessUpTo(blocks, j, max) && (para != [] || j > 0)
  }

  lemma {:induction false} SlicesAreNotBlank(words: seq<string>, i: nat, max: nat)
    requires max >= 1 && i <= |words|
    ensures forall p :: p in SlicesFrom(words, i, max) ==> !BlankPiece(p)
    decreases |words| - i
  {
    if i < |words| && i + max <= |words| { SlicesAreNotBlank(words, i + max, max); }
  }

  lemma HasBlankConcat(xs: seq<Piece>, ys: seq<Piece>)
    ensures HasBlank(xs + ys) <==> HasBlank(xs) || HasBlank(ys)
  {
    forall p ensures p in xs + ys <==> p in xs || p in ys {
    }
  }

  /** One block further: a gap starts at the first block, or lies in the rest. */
  lemma GapSplits(blocks: seq<string>, max: nat)
    requires blocks != []
    ensures HasGap(blocks, max) <==>
      HasGap(blocks[1..], max) || (Oversized(blocks[0], max) && exists j: nat :: j > 0 && WordlessUpTo(blocks[1..], j, max))
  {
    var rest := blocks[1..];
    assert forall k :: 0 <= k < |rest| ==> rest[k] == blocks[k + 1];
    if HasGap(blocks, max) {
      var i: nat, j: nat :| BlankGap(blocks, i, j, max);
      assert forall k :: i < k < j ==> blocks[k] == rest[k - 1];
      if i == 0 { assert WordlessUpTo(rest, j - 1, max); } else { assert BlankGap(rest, i - 1, j - 1, max); }
    }
    if i: nat, j: nat :| BlankGap(rest, i, j, max) {
      assert forall k :: i + 1 < k < j + 1 ==> blocks[k] == rest[k - 1];
      assert BlankGap(blocks, i + 1, j + 1, max);
    }
    if Oversized(blocks[0], max) {
      if j: nat :| j > 0 && WordlessUpTo(rest, j, max) {
        assert forall k :: 0 < k < j + 1 ==> blocks[k] == rest[k - 1];
        assert BlankGap(blocks, 0, j + 1, max);
      }
    }
  }

  /** One block further: a wordless start goes on over a wordless block, and ends at an oversized one. */
  lemma StartSplits(blocks: seq<string>, para: seq<string>, max: nat)
    requires max >= 1 && blocks != []
    ensures Oversized(blocks[0], max) ==> (StartsBlank(blocks, para, max) <==> para != [] && AllWords(para) == [])
    ensures !Oversized(blocks[0], max) ==>
      (StartsBlank(blocks, para, max) <==> StartsBlank(blocks[1..], para + [blocks[0]], max))
  {
    var rest := blocks[1..];
    assert forall k :: 0 <= k < |rest| ==> rest[k] == blocks[k + 1];
    AllWordsOfConcat(para, [blocks[0]]);
    AllWordsOfOne(blocks[0]);
    if Oversized(blocks[0], max) {
      assert WordlessUpTo(blocks, 0, max);
    } else {
      if StartsBlank(blocks, para, max) {
        var j: nat :| WordlessUpTo(blocks, j, max) && (para != [] || j > 0);
        assert Wordless(blocks[0]);
        assert WordlessUpTo(rest, j - 1, max);
      }
      if StartsBlank(rest, para + [blocks[0]], max) {
        var j: nat :| WordlessUpTo(rest, j, max);
        assert forall k :: 0 < k < j + 1 ==> blocks[k] == rest[k - 1];
        assert WordlessUpTo(blocks, j + 1, max);
      }
    }
  }

  lemma PackedParaBlank(para: seq<string>)
    ensures HasBlank(PackedPara(para)) <==> para != [] && AllWords(para) == []
  {
    if para != [] {
      var p := Packed(para);
      assert p in PackedPara(para) && PieceWords(p) == AllWords(para);
      assert BlankPiece(p) <==> AllWords(para) == [];
      assert forall q :: q in PackedPara(para) ==> q == p;
    }
  }

  /** One block completes a piece without words only by flushing wordless paragraphs before an oversized one. */
  lemma BlockBlank(b: string, para: seq<string>, max: nat)
    requires max >= 1 && |AllWords(para)| <= max
    ensures HasBlank(BlockPieces(b, para, max)) <==> Oversized(b, max) && para != [] && AllWords(para) == []
  {
    if Oversized(b, max) {
      PackedParaBlank(para);
      HasBlankConcat(PackedPara(para), Slices(Words(b), max));
      SlicesAreNotBlank(Words(b), 0, max);
    }
  }

  /** What is collected after a block starts blank exactly if it did before, and the block is not oversized. */
  lemma NextStartsBlank(blocks: seq<string>, para: seq<string>, max: nat)
    requires max >= 1 && blocks != [] && |AllWords(para)| <= max && !Oversized(blocks[0], max)
    ensures StartsBlank(blocks[1..], BlockPara(blocks[0], para, max), max) <==> StartsBlank(blocks, para, max)
  {
    var b := blocks[0];
    StartSplits(blocks, para, max);
    AllWordsOfOne(b);
    AllWordsOfConcat(para, [b]);
    if |AllWords(para)| + |Words(b)| > max && para != [] {
      assert AllWords(para) != [] && AllWords([b]) != [];
    }
  }

  lemma RestStartsBlank(rest: seq<string>, max: nat)
    ensures StartsBlank(rest, [], max) <==> exists j: nat :: j > 0 && WordlessUpTo(rest, j, max)
  {
  }

  /** Packing makes a piece without words exactly from a wordless start or a gap. */
  lemma {:induction false} PackBlankIff(blocks: seq<string>, para: seq<string>, max: nat)
    requires max >= 1 && |AllWords(para)| <= max
    ensures HasBlank(Pack(blocks, para, max)) <==> StartsBlank(blocks, para, max) || HasGap(blocks, max)
  {
    if blocks == [] {
      PackedParaBlank(para);
      assert AllWords(para) == [] && para != [] ==> WordlessUpTo(blocks, 0, max);
    } else {
      var b, rest := blocks[0], blocks[1..];
      var next := BlockPara(b, para, max);
      BlockFits(b, para, max);
      BlockBlank(b, para, max);
      PackByBlock(blocks, para, max);
      HasBlankConcat(BlockPieces(b, para, max), Pack(rest, next, max));
      PackBlankIff(rest, next, max);
      GapSplits(blocks, max);
      if Oversized(b, max) {
        StartSplits(blocks, para, max);
        RestStartsBlank(rest, max);
      } else {
        NextStartsBlank(blocks, para, max);
      }
    }
  }

  /** The first and the last paragraph of a stripped text have words, so a gap lies between two oversized paragraphs. */
  lemma BodyBlocks(body: string, max: nat)
    requires body != "" && !IsSpace(body[0]) && !IsSpace(body[|body| - 1])
    ensures !StartsBlank(SplitBlank(body), [], max)
    ensures HasGap(SplitBlank(body), max) <==> exists i: nat, j: nat :: j < |SplitBlank(body)| && BlankGap(SplitBlank(body), i, j, max)
  {
    var blocks := SplitBlank(body);
    SplitBlankStarts(body);
    SplitBlankEnds(body);
    WordlessIsBlank(blocks[0]);
    WordlessIsBlank(blocks[|blocks| - 1]);
    var last := blocks[|blocks| - 1];
    assert !IsSpace(blocks[0][0]) && !IsSpace(last[|last| - 1]);
    if i: nat, j: nat :| BlankGap(blocks, i, j, max) {
      assert i + 1 < |blocks| ==> last == blocks[|blocks| - 1];
      assert !Wordless(last) && j < |blocks|;
    }
  }

  /** The paragraphs of the section's text have, between two oversized ones, only wordless ones, and at least one. */
  ghost predicate HidesBlank(s: Section, max: nat) {
    && |Words(Body(s))| > max
    && exists i: nat, j: nat :: j < |SplitBlank(Body(s))| && BlankGap(SplitBlank(Body(s)), i, j, max)
  }

  ghost predicate HasEmptyText(chunks: seq<Chunk>) {
    exists c :: c in chunks && c.text == ""
  }

  lemma PieceTextIsEmptyIff(p: Piece)
    requires OfWords(p)
    ensures Render(p) == "" <==> BlankPiece(p)
  {
    match p
    case Packed(blocks) =>
      StripOfWordless(Join(blocks, "\n\n"));
      JoinKeepsWords(blocks, "\n\n");
    case Slice(words) => SliceTextIsEmptyIff(words);
  }

  lemma RenderedHasEmptyIff(heading: Option<string>, pieces: seq<Piece>)
    requires forall p :: p in pieces ==> OfWords(p)
    ensures HasEmptyText(Rendered(heading, pieces)) <==> HasBlank(pieces)
  {
    RenderedAt(heading, pieces);
    if HasBlank(pieces) {
      var p :| p in pieces && BlankPiece(p);
      var k :| 0 <= k < |pieces| && pieces[k] == p;
      PieceTextIsEmptyIff(p);
      assert Rendered(heading, pieces)[k] in Rendered(heading, pieces);
    }
    if c :| c in Rendered(heading, pieces) && c.text == "" {
      var k :| 0 <= k < |pieces| && Rendered(heading, pieces)[k] == c;
      PieceTextIsEmptyIff(pieces[k]);
      assert pieces[k] in pieces;
    }
  }

  /** A section gives a chunk without text exactly if it hides such a gap. */
  lemma SectionHasEmptyChunkIff(s: Section, max: nat)
    requires max >= 1
    ensures HasEmptyText(SectionChunks(s, max)) <==> HidesBlank(s, max)
  {
    var body := Body(s);
    if body != "" && |Words(body)| > max {
      var blocks := SplitBlank(body);
      StripEnds(Join(s.lines, "\n"));
      BodyBlocks(body, max);
      PackBlankIff(blocks, [], max);
      PackFits(blocks, [], max);
      forall p | p in Pack(blocks, [], max) ensures OfWords(p) {
        assert Fits(p, max);
      }
      RenderedHasEmptyIff(s.heading, Pack(blocks, [], max));
    }
  }

  lemma SliceTextIsEmptyIff(words: seq<string>)
    requires forall w :: w in words ==> IsWord(w)
    ensures Join(words, " ") == "" <==> words == []
  {
    SplitOfJoinedWords(words, " ");
  }

  lemma {:induction false} AllChunksHaveEmptyIff(sections: seq<Section>, max: nat)
    requires max >= 1
    ensures HasEmptyText(AllChunks(sections, max)) <==> exists s :: s in sections && HidesBlank(s, max)
  {
    if sections != [] {
      SectionHasEmptyChunkIff(sections[0], max);
      AllChunksHaveEmptyIff(sections[1..], max);
      assert forall c :: c in AllChunks(sections, max) <==> c in SectionChunks(sections[0], max) || c in AllChunks(sections[1..], max);
      assert forall s :: s in sections <==> s == sections[0] || s in sections[1..];
    }
  }

  /** Every chunk of a document has text, except exactly when one of its sections hides a gap. */
  lemma EveryChunkHasTextIff(text: string, max: nat)
    requires max >= 1
    ensures HasEmptyText(Chunks(text, max)) <==> exists s :: s in Sections(SplitLines(text), None, []) && HidesBlank(s, max)
  {
    AllChunksHaveEmptyIff(Sections(SplitLines(text), None, []), max);
  }

  predicate OneLine(s: string) {
    forall i :: 0 <= i < |s| ==> !IsLineBreak(s[i]) && s[i] != '\n'
  }

  lemma {:induction false} LineEnds(line: string, rest: string)
    requires OneLine(line)
    ensures LineLength(line + "\n" + rest) == |line|
    ensures LineLength(line) == |line|
  {
    if line != "" {
      assert (line + "\n" + rest)[1..] == line[1..] + "\n" + rest;
      LineEnds(line[1..], rest);
    }
  }

  lemma FirstLine(line: string, rest: string)
    requires OneLine(line)
    ensures SplitLines(line + "\n" + rest) == [line] + SplitLines(rest)
    ensures line != "" ==> SplitLines(line) == [line]
  {
    var s := line + "\n" + rest;
    LineEnds(line, rest);
    assert s[|line|] == '\n' && s[..|line|] == line && s[|line| + 1..] == rest;
  }

  lemma {:induction false} FirstBlock(block: string, rest: string)
    requires OneLine(block)
    ensures SplitBlank(block + "\n\n" + rest) == [block] + SplitBlank(rest)
    ensures SplitBlank(block) == [block]
  {
    var s := block + "\n\n" + rest;
    if block == "" {
      assert s[2..] == rest;
    } else {
      assert s[1..] == block[1..] + "\n\n" + rest;
      FirstBlock(block[1..], rest);
      assert [block[0]] + block[1..] == block;
    }
  }

  lemma TwoWords(w: string, v: string)
    requires IsWord(w) && IsWord(v)
    ensures Words(w + " " + v) == [w, v]
  {
    SplitOfJoinedWords([w, v], " ");
    assert [w, v][1..] == [v];
  }

  lemma JoinOfFive(lines: seq<string>)
    requires |lines| == 5
    ensures Join(lines, "\n") == lines[0] + "\n" + (lines[1] + "\n" + (lines[2] + "\n" + (lines[3] + "\n" + lines[4])))
  {
    assert Join(lines[4..], "\n") == lines[4];
    assert lines[3..][1..] == lines[4..] && lines[2..][1..] == lines[3..] && lines[1..][1..] == lines[2..];
    assert Join(lines[3..], "\n") == lines[3] + "\n" + lines[4];
    assert Join(lines[2..], "\n") == lines[2] + "\n" + Join(lines[3..], "\n");
    assert Join(lines[1..], "\n") == lines[1] + "\n" + Join(lines[2..], "\n");
  }

  /** Lines without a heading are one section. */
  lemma {:induction false} NoHeadingSections(lines: seq<string>, buffer: seq<string>)
    requires forall i :: 0 <= i < |lines| ==> !IsHeading(lines[i])
    ensures Sections(lines, None, buffer) == Flushed(None, buffer + lines)
  {
    if lines == [] {
      assert buffer + lines == buffer;
    } else {
      NoHeadingSections(lines[1..], buffer + [lines[0]]);
      assert buffer + [lines[0]] + lines[1..] == buffer + lines;
    }
  }

  lemma OneSection(lines: seq<string>)
    requires lines != [] && Words(lines[0]) != []
    requires forall i :: 0 <= i < |lines| ==> !IsHeading(lines[i])
    ensures Section(None, lines) in Sections(lines, None, [])
  {
    NoHeadingSections(lines, []);
    assert [] + lines == lines;
    StripOfWordless(lines[0]);
    assert Flushed(None, lines)[0] == Section(None, lines);
  }

  /** Two lines of text, three empty lines apart. */
  function FarApart(x: string, y: string): string {
    x + "\n" + ("" + "\n" + ("" + "\n" + ("" + "\n" + y)))
  }

  lemma FarApartLines(x: string, y: string)
    requires OneLine(x) && OneLine(y) && y != ""
    ensures SplitLines(FarApart(x, y)) == [x, "", "", "", y]
  {
    FirstLine(y, "");
    var one := "" + "\n" + y;
    NextLine("", y, [y], ["", y]);
    var two := "" + "\n" + one;
    NextLine("", one, ["", y], ["", "", y]);
    var three := "" + "\n" + two;
    NextLine("", two, ["", "", y], ["", "", "", y]);
    NextLine(x, three, ["", "", "", y], [x, "", "", "", y]);
  }

  lemma NextLine(line: string, rest: string, lines: seq<string>, all: seq<string>)
    requires OneLine(line) && SplitLines(rest) == lines && all == [line] + lines
    ensures SplitLines(line + "\n" + rest) == all
  {
    FirstLine(line, rest);
  }

  lemma FarApartBlocks(x: string, y: string)
    requires OneLine(x) && OneLine(y)
    ensures SplitBlank(FarApart(x, y)) == [x, "", y]
  {
    assert FarApart(x, y) == x + "\n\n" + ("" + "\n\n" + y);
    FirstBlock(x, "" + "\n\n" + y);
    FirstBlock("", y);
    FirstBlock(y, "");
  }

  lemma FarApartHides(x: string, y: string, max: nat)
    requires max >= 1 && OneLine(x) && OneLine(y) && |Words(x)| > max && |Words(y)| > max
    requires x != "" && !IsSpace(x[0]) && y != "" && !IsSpace(y[|y| - 1])
    ensures HidesBlank(Section(None, [x, "", "", "", y]), max)
  {
    var text, s := FarApart(x, y), Section(None, [x, "", "", "", y]);
    JoinOfFive(s.lines);
    FarApartBlocks(x, y);
    assert Lstrip(text) == text && Rstrip(text) == text;
    assert Body(s) == text;
    var blocks := SplitBlank(text);
    SplitBlankKeepsWords(text);
    assert AllWords(blocks) == Words(x) + AllWords(blocks[1..]);
    assert BlankGap(blocks, 0, 2, max);
  }

  /** Two such lines that each exceed the cap give a document with a chunk without text. */
  lemma FarApartHasEmptyChunk(x: string, y: string, max: nat)
    requires max >= 1 && OneLine(x) && OneLine(y) && |Words(x)| > max && |Words(y)| > max
    requires x != "" && !IsSpace(x[0]) && y != "" && !IsSpace(y[|y| - 1])
    requires !IsHeading(x) && !IsHeading(y)
    ensures HasEmptyText(Chunks(FarApart(x, y), max))
  {
    FarApartLines(x, y);
    OneSection([x, "", "", "", y]);
    FarApartHides(x, y, max);
    EveryChunkHasTextIff(FarApart(x, y), max);
  }

  /** So the words w and v, on two lines far apart, under a cap of one word. */
  lemma WordsFarApart(w: string, v: string) returns (text: string)
    requires IsWord(w) && IsWord(v) && w[0] != '#' && OneLine(w) && OneLine(v)
    ensures HasEmptyText(Chunks(text, 1))
  {
    var line := w + " " + v;
    TwoWords(w, v);
    text := FarApart(line, line);
    FarApartHasEmptyChunk(line, line, 1);
  }

  lemma SomeDocumentHasAnEmptyChunk() returns (text: string)
    ensures HasEmptyText(Chunks(text, 1))
  {
    text := WordsFarApart("a", "b");
  }

  /**
   A blank paragraph between two oversized ones becomes a chunk of its own, with no text at all:
   chunks are never too long, but they can be empty.
   */
  lemma BlankParagraphBecomesEmptyChunk(x: string, y: string, max: nat)
    requires max >= 1 && |Words(x)| > max && |Words(y)| > max
    ensures Packed([""]) in Pack([x, "", y], [], max) && Render(Packed([""])) == ""
  {
    var blocks := [x, "", y];
    PackByBlock(blocks, [], max);
    assert blocks[1..] == ["", y];
    PackByBlock(blocks[1..], [], max);
    assert blocks[1..][1..] == [y];
    assert [] + [""] == [""];
    PackByBlock([y], [""], max);
    assert PackedPara([""])[0] == Packed([""]);
  }

  // ----- headings -----

  lemma {:induction false} FirstSpaceMeaning(s: string)
    ensures forall i :: 0 <= i < FirstSpace(s) ==> s[i] != ' '
    ensures FirstSpace(s) < |s| ==> s[FirstSpace(s)] == ' '
  {
    if s != "" && s[0] != ' ' { FirstSpaceMeaning(s[1..]); }
  }

  /** A heading is a line that starts, after whitespace, with one or more '#' and then a space or nothing. */
  lemma IsHeadingMeaning(line: string)
    ensures IsHeading(line) <==> exists n :: 1 <= n <= |Lstrip(line)| && MarksThenSpace(Lstrip(line), n)
  {
    var t := Lstrip(line);
    FirstSpaceMeaning(t);
    if IsHeading(line) { assert MarksThenSpace(t, FirstSpace(t)); }
    if n :| 1 <= n <= |t| && MarksThenSpace(t, n) {
      assert t[0] == '#';
      assert FirstSpace(t) == n;
    }
  }

  predicate MarksThenSpace(t: string, n: nat)
    requires n <= |t|
  {
    (forall i :: 0 <= i < n ==> t[i] == '#') && (n < |t| ==> t[n] == ' ')
  }

  lemma {:induction false} DropMarksOf(marks: string, title: string)
    requires forall i :: 0 <= i < |marks| ==> marks[i] == '#' || marks[i] == ' '
    requires title != "" && title[0] != '#' && title[0] != ' '
    ensures DropMarks(marks + title) == title
  {
    if marks == "" {
      assert marks + title == title;
    } else {
      assert (marks + title)[0] == marks[0];
      assert (marks + title)[1..] == marks[1..] + title;
      DropMarksOf(marks[1..], title);
    }
  }

  /** '#' marks, a space and a title: a heading whose text is the title. */
  lemma HeadingOfTitle(marks: string, title: string)
    requires marks != "" && forall i :: 0 <= i < |marks| ==> marks[i] == '#'
    requires title != "" && title[0] != '#' && !IsSpace(title[0]) && !IsSpace(title[|title| - 1])
    ensures IsHeading(marks + " " + title) && HeadingText(marks + " " + title) == Some(title)
  {
    var line := marks + " " + title;
    assert line[0] == '#' && Lstrip(line) == line;
    assert MarksThenSpace(line, |marks|);
    IsHeadingMeaning(line);
    DropMarksOf(marks + " ", title);
    assert line == (marks + " ") + title;
    assert Strip(title) == title;
  }

  // ----- packed chunks quote the section -----

  ghost predicate IsPartOf(part: string, whole: string) {
    exists before, after :: before + part + after == whole
  }

  lemma PartOfPart(a: string, b: string, c: string)
    requires IsPartOf(a, b) && IsPartOf(b, c)
    ensures IsPartOf(a, c)
  {
    var x, y :| x + a + y == b;
    var u, v :| u + b + v == c;
    assert (u + x) + a + (y + v) == c;
  }

  lemma {:induction false} LstripIsPart(s: string)
    ensures IsPartOf(Lstrip(s), s)
  {
    if s != "" && IsSpace(s[0]) {
      LstripIsPart(s[1..]);
      assert [s[0]] + s[1..] + "" == s;
      PartOfPart(Lstrip(s), s[1..], s);
    } else {
      assert "" + s + "" == s;
    }
  }

  lemma {:induction false} RstripIsPart(s: string)
    ensures IsPartOf(Rstrip(s), s)
  {
    if s != "" && IsSpace(s[|s| - 1]) {
      var n := |s| - 1;
      RstripIsPart(s[..n]);
      assert "" + s[..n] + [s[n]] == s;
      PartOfPart(Rstrip(s), s[..n], s);
    } else {
      assert "" + s + "" == s;
    }
  }

  lemma StripIsPart(s: string)
    ensures IsPartOf(Strip(s), s)
  {
    LstripIsPart(s);
    RstripIsPart(Lstrip(s));
    PartOfPart(Strip(s), Lstrip(s), s);
  }

  /** Joining fewer of the parts gives a part of the whole. */
  lemma {:induction false} JoinOfTail(parts: seq<string>, sep: string, a: nat)
    requires a <= |parts|
    ensures IsPartOf(Join(parts[a..], sep), Join(parts, sep))
  {
    if a == 0 {
      assert parts[0..] == parts;
      assert "" + Join(parts, sep) + "" == Join(parts, sep);
    } else if |parts| == 1 {
      assert parts[a..] == [];
      assert Join(parts, sep) + "" + "" == Join(parts, sep);
    } else {
      JoinOfTail(parts[1..], sep, a - 1);
      assert parts[1..][a - 1..] == parts[a..];
      assert (parts[0] + sep) + Join(parts[1..], sep) + "" == Join(parts, sep);
      PartOfPart(Join(parts[a..], sep), Join(parts[1..], sep), Join(parts, sep));
    }
  }

  lemma {:induction false} JoinOfFront(parts: seq<string>, sep: string, b: nat)
    requires b <= |parts|
    ensures exists after :: Join(parts[..b], sep) + after == Join(parts, sep)
  {
    if b == 0 {
      assert Join(parts[..b], sep) + Join(parts, sep) == Join(parts, sep);
    } else if |parts| == 1 {
      assert parts[..b] == parts;
      assert Join(parts[..b], sep) + "" == Join(parts, sep);
    } else if b == 1 {
      assert parts[..b] == [parts[0]];
      assert parts[0] + (sep + Join(parts[1..], sep)) == Join(parts, sep);
    } else {
      JoinOfFront(parts[1..], sep, b - 1);
      var after :| Join(parts[1..][..b - 1], sep) + after == Join(parts[1..], sep);
      assert parts[..b][1..] == parts[1..][..b - 1];
      assert Join(parts[..b], sep) == parts[0] + sep + Join(parts[1..][..b - 1], sep);
      assert Join(parts[..b], sep) + after == Join(parts, sep);
    }
  }

  lemma JoinOfSome(parts: seq<string>, sep: string, a: nat, b: nat)
    requires a <= b <= |parts|
    ensures IsPartOf(Join(parts[a..b], sep), Join(parts, sep))
  {
    JoinOfTail(parts[..b], sep, a);
    assert parts[..b][a..] == parts[a..b];
    JoinOfFront(parts, sep, b);
    var after :| Join(parts[..b], sep) + after == Join(parts, sep);
    assert "" + Join(parts[..b], sep) + after == Join(parts, sep);
    PartOfPart(Join(parts[a..b], sep), Join(parts[..b], sep), Join(parts, sep));
  }

  /** Every packed piece is a run of consecutive paragraphs. */
  ghost predicate AreRuns(pieces: seq<Piece>, blocks: seq<string>) {
    forall p :: p in pieces && p.Packed? ==> IsConsecutive(p.blocks, blocks)
  }

  ghost predicate IsConsecutive(part: seq<string>, blocks: seq<string>) {
    exists a, b :: 0 <= a <= b <= |blocks| && part == blocks[a..b]
  }

  lemma {:induction false} SlicesAreSlices(words: seq<string>, i: nat, max: nat)
    requires max >= 1
    ensures forall p :: p in SlicesFrom(words, i, max) ==> p.Slice?
    decreases |words| - i
  {
    if i < |words| { SlicesAreSlices(words, i + max, max); }
  }

  /** What a block completes: the paragraphs collected before it, if anything is packed. */
  lemma CompletedAreRuns(blocks: seq<string>, i: nat, k: nat, max: nat)
    requires max >= 1 && i <= k < |blocks|
    ensures AreRuns(BlockPieces(blocks[k], blocks[i..k], max), blocks)
  {
    assert IsConsecutive(blocks[i..k], blocks);
    SlicesAreSlices(Words(blocks[k]), 0, max);
  }

  /** The paragraphs collected after a block are consecutive again. */
  lemma CollectedNext(blocks: seq<string>, i: nat, k: nat, max: nat) returns (next: nat)
    requires max >= 1 && i <= k < |blocks|
    ensures next <= k + 1 && BlockPara(blocks[k], blocks[i..k], max) == blocks[next..k + 1]
  {
    next := if |Words(blocks[k])| > max then k + 1
            else if |AllWords(blocks[i..k])| + |Words(blocks[k])| > max && blocks[i..k] != [] then k else i;
    if next == k {
      assert blocks[next..k + 1] == [blocks[k]];
    } else if next == i {
      assert blocks[next..k + 1] == blocks[i..k] + [blocks[k]];
    }
  }

  lemma {:induction false} PackedAreRuns(blocks: seq<string>, i: nat, k: nat, max: nat)
    requires max >= 1 && i <= k <= |blocks|
    ensures AreRuns(Pack(blocks[k..], blocks[i..k], max), blocks)
    decreases |blocks| - k
  {
    if k == |blocks| {
      assert IsConsecutive(blocks[i..k], blocks);
    } else {
      CompletedAreRuns(blocks, i, k, max);
      var next := CollectedNext(blocks, i, k, max);
      PackedAreRuns(blocks, next, k + 1, max);
      PackByBlock(blocks[k..], blocks[i..k], max);
      assert blocks[k..][1..] == blocks[k + 1..];
    }
  }

  /** What is not hard split stands in the section word for word: a chunk that fits is the section's text, and so a packed one is a part of it. */
  lemma PackedChunksQuote(s: Section, max: nat, piece: Piece)
    requires max >= 1 && piece in Pack(SplitBlank(Body(s)), [], max) && piece.Packed?
    ensures IsPartOf(Render(piece), Strip(Join(s.lines, "\n")))
  {
    var body := Strip(Join(s.lines, "\n"));
    var blocks := SplitBlank(body);
    assert blocks[0..] == blocks && blocks[0..0] == [];
    PackedAreRuns(blocks, 0, 0, max);
    var a, b :| 0 <= a <= b <= |blocks| && piece.blocks == blocks[a..b];
    JoinOfSome(blocks, "\n\n", a, b);
    SplitBlankJoins(body);
    StripIsPart(Join(piece.blocks, "\n\n"));
    PartOfPart(Render(piece), Join(piece.blocks, "\n\n"), body);
  }

  /** A section that fits is one chunk under its heading, its text as it stands. */
  lemma SmallSectionIsOneChunk(s: Section, max: nat)
    requires max >= 1 && |Words(Strip(Join(s.lines, "\n")))| <= max
    ensures SectionChunks(s, max) ==
      if Strip(Join(s.lines, "\n")) == "" then [] else [Chunk(s.heading, Strip(Join(s.lines, "\n")))]
  {
  }

  // ----- hard splits -----

  /** The n-th slice of the words, full unless they end in it. */
  predicate IsSlice(part: seq<string>, words: seq<string>, n: nat, max: nat) {
    && n * max < |words|
    && part == words[n * max..if n * max + max <= |words| then n * max + max else |words|]
  }

  lemma {:induction false} SlicesMeaning(words: seq<string>, k: nat, max: nat, p: Piece)
    requires max >= 1 && p in SlicesFrom(words, k * max, max)
    ensures p.Slice? && exists n: nat :: IsSlice(p.words, words, n, max)
    decreases |words| - k * max
  {
    var i := k * max;
    if i < |words| {
      if p == Slice(words[i..SliceEnd(words, i, max)]) {
        assert IsSlice(p.words, words, k, max);
      } else {
        assert (k + 1) * max == i + max;
        SlicesMeaning(words, k + 1, max, p);
      }
    }
  }

  ghost predicate CutsUp(part: seq<string>, block: string, max: nat) {
    |Words(block)| > max && exists n: nat :: IsSlice(part, Words(block), n, max)
  }

  /** Only a paragraph that alone exceeds the cap is cut, and into slices of exactly the cap but for the last. */
  lemma {:induction false} OnlyOversizedIsCut(blocks: seq<string>, para: seq<string>, max: nat, p: Piece)
    requires max >= 1 && p in Pack(blocks, para, max) && p.Slice?
    ensures exists b :: b in blocks && CutsUp(p.words, b, max)
  {
    if blocks != [] {
      PackByBlock(blocks, para, max);
      if p in BlockPieces(blocks[0], para, max) {
        assert p in Slices(Words(blocks[0]), max);
        assert 0 * max == 0;
        SlicesMeaning(Words(blocks[0]), 0, max, p);
        assert CutsUp(p.words, blocks[0], max);
      } else {
        OnlyOversizedIsCut(blocks[1..], BlockPara(blocks[0], para, max), max, p);
        var b :| b in blocks[1..] && CutsUp(p.words, b, max);
        assert b in blocks;
      }
    }
  }
}
