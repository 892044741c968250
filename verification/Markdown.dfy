/** Splitting a markdown document into chunks (backend/services/platform_knowledge_service.py chunk_markdown). */
module Markdown {
  import opened Options
  import opened Text

  datatype Section = Section(heading: Option<string>, lines: seq<string>)

  datatype Chunk = Chunk(heading: Option<string>, text: string)

  /** What one chunk of an oversized section is made of: whole paragraphs, or a slice of the words of one. */
  datatype Piece = Packed(blocks: seq<string>) | Slice(words: seq<string>)

  // ----- headings and sections -----

  /** Where the first plain space is; the length if there is none. */
  function FirstSpace(s: string): (n: nat)
    ensures n <= |s|
  {
    if s == "" || s[0] == ' ' then 0 else 1 + FirstSpace(s[1..])
  }

  /** A line whose first token, after leading whitespace, consists of '#' only. */
  predicate IsHeading(line: string) {
    var t := Lstrip(line);
    t != "" && t[0] == '#' && forall i :: 0 <= i < FirstSpace(t) ==> t[i] == '#'
  }

  function DropMarks(s: string): string {
    if s != "" && (s[0] == '#' || s[0] == ' ') then DropMarks(s[1..]) else s
  }

  function HeadingText(line: string): Option<string> {
    var t := Strip(DropMarks(line));
    if t == "" then None else Some(t)
  }

  function Flushed(heading: Option<string>, buffer: seq<string>): seq<Section> {
    if exists i :: 0 <= i < |buffer| && Strip(buffer[i]) != "" then [Section(heading, buffer)] else []
  }

  function Sections(lines: seq<string>, heading: Option<string>, buffer: seq<string>): seq<Section> {
    if lines == [] then Flushed(heading, buffer)
    else if IsHeading(lines[0]) then Flushed(heading, buffer) + Sections(lines[1..], HeadingText(lines[0]), [])
    else Sections(lines[1..], heading, buffer + [lines[0]])
  }

  // ----- packing an oversized section -----

  /** The words from index i on, `max` at a time. */
  function SlicesFrom(words: seq<string>, i: nat, max: nat): seq<Piece>
    requires max >= 1
    decreases |words| - i
  {
    if i >= |words| then []
    else [Slice(words[i..SliceEnd(words, i, max)])] + SlicesFrom(words, i + max, max)
  }

  function SliceEnd(words: seq<string>, i: nat, max: nat): (end: nat)
    requires i < |words|
    ensures i <= end <= |words|
  {
    if i + max <= |words| then i + max else |words|
  }

  function Slices(words: seq<string>, max: nat): seq<Piece>
    requires max >= 1
  {
    SlicesFrom(words, 0, max)
  }

  function PackedPara(para: seq<string>): seq<Piece> {
    if para == [] then [] else [Packed(para)]
  }

  /** The pieces of the remaining blocks when `para` is already collected. */
  function Pack(blocks: seq<string>, para: seq<string>, max: nat): seq<Piece>
    requires max >= 1
  {
    if blocks == [] then PackedPara(para)
    else
      var words := Words(blocks[0]);
      if |words| > max then PackedPara(para) + Slices(words, max) + Pack(blocks[1..], [], max)
      else if |AllWords(para)| + |words| > max && para != [] then [Packed(para)] + Pack(blocks[1..], [blocks[0]], max)
      else Pack(blocks[1..], para + [blocks[0]], max)
  }

  function Render(p: Piece): string {
    match p
    case Packed(blocks) => Strip(Join(blocks, "\n\n"))
    case Slice(words) => Join(words, " ")
  }

  function Rendered(heading: Option<string>, pieces: seq<Piece>): seq<Chunk> {
    if pieces == [] then []
    else Rendered(heading, pieces[..|pieces| - 1]) + [Chunk(heading, Render(pieces[|pieces| - 1]))]
  }

  function Body(s: Section): string {
    Strip(Join(s.lines, "\n"))
  }

  function SectionChunks(s: Section, max: nat): seq<Chunk>
    requires max >= 1
  {
    if Body(s) == "" then []
    else if |Words(Body(s))| <= max then [Chunk(s.heading, Body(s))]
    else Rendered(s.heading, Pack(SplitBlank(Body(s)), [], max))
  }

  function AllChunks(sections: seq<Section>, max: nat): seq<Chunk>
    requires max >= 1
  {
    if sections == [] then [] else SectionChunks(sections[0], max) + AllChunks(sections[1..], max)
  }

  function Chunks(text: string, max: nat): seq<Chunk>
    requires max >= 1
  {
    AllChunks(Sections(SplitLines(text), None, []), max)
  }

  // ----- the code -----

  /** chunk_markdown. */
  method ChunkMarkdown(text: string, maxTokens: nat) returns (chunks: seq<Chunk>)
    requires maxTokens >= 1
    ensures chunks == Chunks(text, maxTokens)
  {
    var sections := SplitSections(SplitLines(text));
    chunks := [];
    for i := 0 to |sections|
      invariant chunks + AllChunks(sections[i..], maxTokens) == AllChunks(sections, maxTokens)
    {
      assert sections[i..][1..] == sections[i + 1..];
      var more := ChunkSection(sections[i], maxTokens);
      Assoc(chunks, more, AllChunks(sections[i + 1..], maxTokens));
      chunks := chunks + more;
    }
    assert sections[|sections|..] == [];
  }

  method ChunkSection(s: Section, maxTokens: nat) returns (chunks: seq<Chunk>)
    requires maxTokens >= 1
    ensures chunks == SectionChunks(s, maxTokens)
  {
    var body := Strip(Join(s.lines, "\n"));
    if body == "" { return []; }
    if |Words(body)| <= maxTokens { return [Chunk(s.heading, body)]; }
    chunks := PackBlocks(s.heading, SplitBlank(body), maxTokens);
  }

  /** The first loop: lines go to the buffer, a heading flushes it. */
  method SplitSections(lines: seq<string>) returns (sections: seq<Section>)
    ensures sections == Sections(lines, None, [])
  {
    sections := [];
    var heading: Option<string> := None;
    var buffer: seq<string> := [];
    for i := 0 to |lines|
      invariant sections + Sections(lines[i..], heading, buffer) == Sections(lines, None, [])
    {
      assert lines[i..][1..] == lines[i + 1..];
      ghost var done := sections;
      if IsHeading(lines[i]) {
        sections := sections + Flushed(heading, buffer);
        heading := HeadingText(lines[i]);
        buffer := [];
      } else {
        buffer := buffer + [lines[i]];
      }
    }
    assert lines[|lines|..] == [];
    sections := sections + Flushed(heading, buffer);
  }

  lemma {:induction false} RenderedMore(heading: Option<string>, xs: seq<Piece>, ys: seq<Piece>)
    ensures Rendered(heading, xs + ys) == Rendered(heading, xs) + Rendered(heading, ys)
  {
    if ys == [] {
      assert xs + ys == xs;
    } else {
      var n := |ys| - 1;
      RenderedMore(heading, xs, ys[..n]);
      assert (xs + ys)[..|xs + ys| - 1] == xs + ys[..n];
    }
  }

  lemma RenderedOne(heading: Option<string>, xs: seq<Piece>, p: Piece)
    ensures Rendered(heading, xs + [p]) == Rendered(heading, xs) + [Chunk(heading, Render(p))]
  {
    assert (xs + [p])[..|xs + [p]| - 1] == xs;
  }

  /** The pieces a block completes, and the paragraphs collected after it. */
  function BlockPieces(block: string, para: seq<string>, max: nat): seq<Piece>
    requires max >= 1
  {
    var words := Words(block);
    if |words| > max then PackedPara(para) + Slices(words, max)
    else if |AllWords(para)| + |words| > max && para != [] then [Packed(para)]
    else []
  }

  function BlockPara(block: string, para: seq<string>, max: nat): seq<string> {
    var words := Words(block);
    if |words| > max then []
    else if |AllWords(para)| + |words| > max && para != [] then [block]
    else para + [block]
  }

  lemma PackByBlock(blocks: seq<string>, para: seq<string>, max: nat)
    requires max >= 1 && blocks != []
    ensures Pack(blocks, para, max) == BlockPieces(blocks[0], para, max) + Pack(blocks[1..], BlockPara(blocks[0], para, max), max)
  {
  }

  /** The body of the packing loop. */
  method PackBlock(heading: Option<string>, block: string, paraIn: seq<string>, countIn: nat, max: nat)
    returns (chunks: seq<Chunk>, para: seq<string>, count: nat)
    requires max >= 1 && countIn == |AllWords(paraIn)|
    ensures chunks == Rendered(heading, BlockPieces(block, paraIn, max))
    ensures para == BlockPara(block, paraIn, max) && count == |AllWords(para)|
  {
    chunks, para, count := [], paraIn, countIn;
    var words := Words(block);
    if |words| > max {
      if para != [] {
        chunks := FlushPara(heading, para);
      }
      var slices := HardSplit(heading, words, max);
      RenderedMore(heading, PackedPara(para), Slices(words, max));
      return chunks + slices, [], 0;
    }
    if count + |words| > max && para != [] {
      chunks := FlushPara(heading, para);
      para, count := [], 0;
    }
    CountOneMore(para, block);
    para := para + [block];
    count := count + |words|;
  }

  /** chunks.append((heading, "\n\n".join(para).strip())). */
  method FlushPara(heading: Option<string>, para: seq<string>) returns (chunks: seq<Chunk>)
    ensures chunks == Rendered(heading, [Packed(para)])
  {
    chunks := [Chunk(heading, Strip(Join(para, "\n\n")))];
    RenderedOne(heading, [], Packed(para));
    assert [] + [Packed(para)] == [Packed(para)];
  }

  lemma CountOneMore(para: seq<string>, block: string)
    ensures |AllWords(para + [block])| == |AllWords(para)| + |Words(block)|
  {
    AllWordsOfConcat(para, [block]);
    assert AllWords([block]) == Words(block) + AllWords([block][1..]);
  }

  /** The second loop: pack paragraphs up to the cap, hard-split a paragraph that alone exceeds it. */
  method PackBlocks(heading: Option<string>, blocks: seq<string>, max: nat) returns (chunks: seq<Chunk>)
    requires max >= 1
    ensures chunks == Rendered(heading, Pack(blocks, [], max))
  {
    chunks := [];
    var para: seq<string> := [];
    var count := 0;
    assert blocks[0..] == blocks;
    for i := 0 to |blocks|
      invariant count == |AllWords(para)|
      invariant PackedSoFar(heading, blocks, i, para, max, chunks)
    {
      PackOneMore(heading, blocks, i, para, max, chunks);
      var more;
      more, para, count := PackBlock(heading, blocks[i], para, count, max);
      chunks := chunks + more;
    }
    assert blocks[|blocks|..] == [];
    if para != [] {
      var last := FlushPara(heading, para);
      chunks := chunks + last;
    }
  }

  /** The chunks completed before block i, with `para` collected. */
  ghost predicate PackedSoFar(heading: Option<string>, blocks: seq<string>, i: nat, para: seq<string>, max: nat, chunks: seq<Chunk>)
    requires max >= 1 && i <= |blocks|
  {
    chunks + Rendered(heading, Pack(blocks[i..], para, max)) == Rendered(heading, Pack(blocks, [], max))
  }

  lemma PackOneMore(heading: Option<string>, blocks: seq<string>, i: nat, para: seq<string>, max: nat, chunks: seq<Chunk>)
    requires max >= 1 && i < |blocks|
    requires PackedSoFar(heading, blocks, i, para, max, chunks)
    ensures PackedSoFar(heading, blocks, i + 1, BlockPara(blocks[i], para, max), max,
                        chunks + Rendered(heading, BlockPieces(blocks[i], para, max)))
  {
    PackByBlock(blocks[i..], para, max);
    assert blocks[i..][1..] == blocks[i + 1..];
    RenderedMore(heading, BlockPieces(blocks[i], para, max), Pack(blocks[i + 1..], BlockPara(blocks[i], para, max), max));
  }

  /** for i in range(0, len(words), max_tokens). */
  method HardSplit(heading: Option<string>, words: seq<string>, max: nat) returns (chunks: seq<Chunk>)
    requires max >= 1
    ensures chunks == Rendered(heading, Slices(words, max))
  {
    chunks := [];
    var i := 0;
    while i < |words|
      invariant 0 <= i
      invariant SplitSoFar(heading, words, i, max, chunks)
    {
      SplitStep(heading, words, i, max, chunks);
      chunks := chunks + [Chunk(heading, Join(words[i..SliceEnd(words, i, max)], " "))];
      i := i + max;
    }
  }

  /** The chunks of the slices before word i. */
  ghost predicate SplitSoFar(heading: Option<string>, words: seq<string>, i: nat, max: nat, chunks: seq<Chunk>)
    requires max >= 1
  {
    chunks + Rendered(heading, SlicesFrom(words, i, max)) == Rendered(heading, Slices(words, max))
  }

  lemma SplitStep(heading: Option<string>, words: seq<string>, i: nat, max: nat, chunks: seq<Chunk>)
    requires max >= 1 && i < |words|
    requires SplitSoFar(heading, words, i, max, chunks)
    ensures SplitSoFar(heading, words, i + max, max, chunks + [Chunk(heading, Join(words[i..SliceEnd(words, i, max)], " "))])
  {
    var slice := Slice(words[i..SliceEnd(words, i, max)]);
    RenderedMore(heading, [slice], SlicesFrom(words, i + max, max));
    RenderedOne(heading, [], slice);
    assert [] + [slice] == [slice];
  }
}
