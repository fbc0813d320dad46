/**
 * The deterministic document layouts: the line-wrapping and pagination of
 * text drawn into a PDF, the text extracted from a PDF, the heading,
 * paragraph and page-break structure of a DOCX built from a PDF, and the
 * names and save format of the images rendered from a PDF's pages.
 */
module Layout {
  import opened Wrappers
  import Text
  import Paths

  // ---- text to PDF -------------------------------------------------------

  /** Characters drawn per chunk of an over-long line. */
  const CHUNK := 80
  /** Left margin (the x of every draw), and the bottom margin and top gap. */
  const MARGIN := 50
  /** Vertical advance per drawn chunk and per line. */
  const LEADING := 15
  /** The height of a US-letter page in points, the page size the program uses. */
  const LETTER_HEIGHT := 792

  /** What the drawing loop asks of the PDF canvas, in order. */
  datatype Draw = SetFont(name: string) | DrawString(x: int, y: int, text: string) | ShowPage

  /** The drawing loop's state: the current y and the canvas calls so far. */
  datatype Pen = Pen(y: int, events: seq<Draw>)

  /** Below the bottom margin: start a new page, set the font again and go back to the top. */
  function NewPageIfLow(p: Pen, height: int, font: string): Pen {
    if p.y < MARGIN then Pen(height - MARGIN, p.events + [ShowPage, SetFont(font)]) else p
  }

  /** The inner loop: draws 80-character chunks while more than 80 characters remain. */
  function WrapLong(p: Pen, text: string, height: int, font: string): (Pen, string)
    decreases |text|
  {
    if |text| > CHUNK then
      var drawn := Pen(p.y - LEADING, p.events + [DrawString(MARGIN, p.y, text[..CHUNK])]);
      WrapLong(NewPageIfLow(drawn, height, font), text[CHUNK..], height, font)
    else (p, text)
  }

  /** One input line: its stripped text in chunks, then one extra line gap. */
  function LayLine(p: Pen, line: string, height: int, font: string): Pen {
    var (q, rest) := WrapLong(p, Text.Strip(line), height, font);
    var r := if rest != [] then Pen(q.y - LEADING, q.events + [DrawString(MARGIN, q.y, rest)]) else q;
    NewPageIfLow(Pen(r.y - LEADING, r.events), height, font)
  }

  function LayLines(p: Pen, lines: seq<string>, height: int, font: string): Pen
    decreases |lines|
  {
    if lines == [] then p else LayLines(LayLine(p, lines[0], height, font), lines[1..], height, font)
  }

  /** The canvas calls for a whole text file. */
  function Layout(lines: seq<string>, height: int, font: string): seq<Draw> {
    LayLines(Pen(height - MARGIN, [SetFont(font)]), lines, height, font).events
  }

  /**
   * The text-to-PDF drawing loop: each stripped line is drawn in chunks of
   * at most 80 characters, moving down 15 points per chunk and 15 more per
   * line, with a new page whenever the cursor falls below the margin.
   */
  method LayOutText(lines: seq<string>, height: int, font: string) returns (events: seq<Draw>)
    ensures events == Layout(lines, height, font)
  {
    events := [SetFont(font)];
    var y := height - MARGIN;
    var n := 0;
    while n < |lines|
      invariant 0 <= n <= |lines|
      invariant LayLines(Pen(y, events), lines[n..], height, font).events == Layout(lines, height, font)
    {
      ghost var start := Pen(y, events);
      var text := Text.Strip(lines[n]);
      while |text| > CHUNK
        invariant WrapLong(Pen(y, events), text, height, font) == WrapLong(start, Text.Strip(lines[n]), height, font)
        decreases |text|
      {
        events := events + [DrawString(MARGIN, y, text[..CHUNK])];
        text := text[CHUNK..];
        y := y - LEADING;
        if y < MARGIN {
          events := events + [ShowPage, SetFont(font)];
          y := height - MARGIN;
        }
      }
      if text != [] {
        events := events + [DrawString(MARGIN, y, text)];
        y := y - LEADING;
      }
      y := y - LEADING;
      if y < MARGIN {
        events := events + [ShowPage, SetFont(font)];
        y := height - MARGIN;
      }
      assert Pen(y, events) == LayLine(start, lines[n], height, font);
      assert lines[n..][1..] == lines[n + 1..];
      n := n + 1;
    }
  }

  /** The chunks a stripped line is drawn in. */
  function Chunks(t: string): seq<string>
    decreases |t|
  {
    if |t| > CHUNK then [t[..CHUNK]] + Chunks(t[CHUNK..]) else if t == [] then [] else [t]
  }

  function Flatten(ss: seq<string>): string
    decreases |ss|
  {
    if ss == [] then [] else ss[0] + Flatten(ss[1..])
  }

  /** Every chunk holds 1 to 80 characters, and the chunks put together give the line back. */
  lemma {:induction false} ChunksShape(t: string)
    ensures Flatten(Chunks(t)) == t
    ensures forall i :: 0 <= i < |Chunks(t)| ==> 1 <= |Chunks(t)[i]| <= CHUNK
    decreases |t|
  {
    if |t| > CHUNK {
      ChunksShape(t[CHUNK..]);
      var cs := Chunks(t);
      assert cs[1..] == Chunks(t[CHUNK..]);
      assert t == t[..CHUNK] + t[CHUNK..];
    }
  }

  /** The texts of the draw calls, in order. */
  function DrawnTexts(events: seq<Draw>): seq<string>
    decreases |events|
  {
    if events == [] then []
    else (if events[0].DrawString? then [events[0].text] else []) + DrawnTexts(events[1..])
  }

  lemma {:induction false} DrawnTextsAppend(a: seq<Draw>, b: seq<Draw>)
    ensures DrawnTexts(a + b) == DrawnTexts(a) + DrawnTexts(b)
    decreases |a|
  {
    if a == [] {
      assert a + b == b;
    } else {
      assert (a + b)[0] == a[0];
      assert (a + b)[1..] == a[1..] + b;
      DrawnTextsAppend(a[1..], b);
    }
  }

  /** Starting a new page draws no text. */
  lemma PageBreakDrawsNothing(p: Pen, height: int, font: string)
    ensures DrawnTexts(NewPageIfLow(p, height, font).events) == DrawnTexts(p.events)
  {
    if p.y < MARGIN {
      DrawnTextsAppend(p.events, [ShowPage, SetFont(font)]);
      assert DrawnTexts([SetFont(font)]) == [];
    }
  }

  lemma {:induction false} WrapLongDraws(p: Pen, t: string, height: int, font: string)
    ensures var (q, rest) := WrapLong(p, t, height, font);
      DrawnTexts(q.events) + Chunks(rest) == DrawnTexts(p.events) + Chunks(t) && |rest| <= CHUNK
    decreases |t|
  {
    if |t| > CHUNK {
      var d := DrawString(MARGIN, p.y, t[..CHUNK]);
      var drawn := Pen(p.y - LEADING, p.events + [d]);
      var next := NewPageIfLow(drawn, height, font);
      DrawnTextsAppend(p.events, [d]);
      assert DrawnTexts([d]) == [t[..CHUNK]];
      PageBreakDrawsNothing(drawn, height, font);
      assert DrawnTexts(next.events) == DrawnTexts(p.events) + [t[..CHUNK]];
      WrapLongDraws(next, t[CHUNK..], height, font);
      var (q, rest) := WrapLong(next, t[CHUNK..], height, font);
      assert WrapLong(p, t, height, font) == (q, rest);
      assert Chunks(t) == [t[..CHUNK]] + Chunks(t[CHUNK..]);
      calc {
        DrawnTexts(q.events) + Chunks(rest);
        DrawnTexts(next.events) + Chunks(t[CHUNK..]);
        (DrawnTexts(p.events) + [t[..CHUNK]]) + Chunks(t[CHUNK..]);
        DrawnTexts(p.events) + ([t[..CHUNK]] + Chunks(t[CHUNK..]));
        DrawnTexts(p.events) + Chunks(t);
      }
    }
  }

  /** The draw calls for one line draw exactly the chunks of its stripped text. */
  lemma LayLineDraws(p: Pen, line: string, height: int, font: string)
    ensures DrawnTexts(LayLine(p, line, height, font).events) == DrawnTexts(p.events) + Chunks(Text.Strip(line))
  {
    var t := Text.Strip(line);
    WrapLongDraws(p, t, height, font);
    var (q, rest) := WrapLong(p, t, height, font);
    var r := if rest != [] then Pen(q.y - LEADING, q.events + [DrawString(MARGIN, q.y, rest)]) else q;
    PageBreakDrawsNothing(Pen(r.y - LEADING, r.events), height, font);
    if rest != [] {
      DrawnTextsAppend(q.events, [DrawString(MARGIN, q.y, rest)]);
      assert Chunks(rest) == [rest];
    }
  }

  /** The chunks of every line, line after line. */
  function AllChunks(lines: seq<string>): seq<string>
    decreases |lines|
  {
    if lines == [] then [] else Chunks(Text.Strip(lines[0])) + AllChunks(lines[1..])
  }

  lemma {:induction false} LayLinesDraws(p: Pen, lines: seq<string>, height: int, font: string)
    ensures DrawnTexts(LayLines(p, lines, height, font).events) == DrawnTexts(p.events) + AllChunks(lines)
    decreases |lines|
  {
    if lines != [] {
      LayLineDraws(p, lines[0], height, font);
      LayLinesDraws(LayLine(p, lines[0], height, font), lines[1..], height, font);
    }
  }

  /**
   * The text drawn for a file is the chunks of its stripped lines, in
   * order; each chunk holds 1 to 80 characters and a line's chunks put
   * together give its stripped text.
   */
  lemma LayoutDrawsEveryLine(lines: seq<string>, height: int, font: string)
    ensures DrawnTexts(Layout(lines, height, font)) == AllChunks(lines)
  {
    LayLinesDraws(Pen(height - MARGIN, [SetFont(font)]), lines, height, font);
    assert DrawnTexts([SetFont(font)]) == [];
  }

  // ---- where things are drawn ---------------------------------------------

  /** Every draw call is at the left margin and within the vertical band [lo, hi]. */
  predicate DrawsWithin(events: seq<Draw>, lo: int, hi: int) {
    forall i :: 0 <= i < |events| && events[i].DrawString? ==>
      events[i].x == MARGIN && lo <= events[i].y <= hi
  }

  /** A pen between the margins, with every draw so far between them too. */
  predicate PenInBand(p: Pen, height: int) {
    MARGIN <= p.y <= height - MARGIN && DrawsWithin(p.events, MARGIN, height - MARGIN)
  }

  lemma DrawsWithinAppend(a: seq<Draw>, b: seq<Draw>, lo: int, hi: int)
    requires DrawsWithin(a, lo, hi) && DrawsWithin(b, lo, hi)
    ensures DrawsWithin(a + b, lo, hi)
  {
    assert forall i :: |a| <= i < |a + b| ==> (a + b)[i] == b[i - |a|];
  }

  lemma {:induction false} WrapLongInBand(p: Pen, t: string, height: int, font: string)
    requires PenInBand(p, height)
    ensures PenInBand(WrapLong(p, t, height, font).0, height)
    decreases |t|
  {
    if |t| > CHUNK {
      var d := DrawString(MARGIN, p.y, t[..CHUNK]);
      DrawsWithinAppend(p.events, [d], MARGIN, height - MARGIN);
      var drawn := Pen(p.y - LEADING, p.events + [d]);
      var p1 := NewPageIfLow(drawn, height, font);
      DrawsWithinAppend(drawn.events, [ShowPage, SetFont(font)], MARGIN, height - MARGIN);
      WrapLongInBand(p1, t[CHUNK..], height, font);
    }
  }

  lemma LayLineInBand(p: Pen, line: string, height: int, font: string)
    requires PenInBand(p, height)
    ensures PenInBand(LayLine(p, line, height, font), height)
  {
    var (q, rest) := WrapLong(p, Text.Strip(line), height, font);
    WrapLongInBand(p, Text.Strip(line), height, font);
    DrawsWithinAppend(q.events, [DrawString(MARGIN, q.y, rest)], MARGIN, height - MARGIN);
    var r := if rest != [] then Pen(q.y - LEADING, q.events + [DrawString(MARGIN, q.y, rest)]) else q;
    DrawsWithinAppend(r.events, [ShowPage, SetFont(font)], MARGIN, height - MARGIN);
  }

  lemma {:induction false} LayLinesInBand(p: Pen, lines: seq<string>, height: int, font: string)
    requires PenInBand(p, height)
    ensures PenInBand(LayLines(p, lines, height, font), height)
    decreases |lines|
  {
    if lines != [] {
      LayLineInBand(p, lines[0], height, font);
      LayLinesInBand(LayLine(p, lines[0], height, font), lines[1..], height, font);
    }
  }

  /**
   * On a page at least 100 points high, every chunk is drawn at x = 50 and
   * at a y between 50 and height - 50.
   */
  lemma LayoutStaysInMargins(lines: seq<string>, height: int, font: string)
    requires height >= 2 * MARGIN
    ensures DrawsWithin(Layout(lines, height, font), MARGIN, height - MARGIN)
  {
    LayLinesInBand(Pen(height - MARGIN, [SetFont(font)]), lines, height, font);
  }

  /** The number of pages started so far. */
  function PagesStarted(events: seq<Draw>): nat {
    multiset(events)[ShowPage]
  }

  /**
   * Below the margin a new page is started and the cursor goes back to
   * 50 points under the top; otherwise nothing happens.
   */
  lemma LowPenStartsPage(p: Pen, height: int, font: string)
    ensures var q := NewPageIfLow(p, height, font);
      && (p.y < MARGIN ==> q.y == height - MARGIN && PagesStarted(q.events) == PagesStarted(p.events) + 1)
      && (p.y >= MARGIN ==> q == p)
  {
    if p.y < MARGIN {
      assert multiset(p.events + [ShowPage, SetFont(font)]) == multiset(p.events) + multiset{ShowPage, SetFont(font)};
    }
  }

  /**
   * When a line fits on the rest of the page, the cursor drops 15 points
   * per chunk plus 15 for the line, and no page is started.
   */
  lemma LineAdvance(p: Pen, line: string, height: int, font: string)
    requires p.y - LEADING * (|Chunks(Text.Strip(line))| + 1) >= MARGIN
    ensures LayLine(p, line, height, font).y == p.y - LEADING * (|Chunks(Text.Strip(line))| + 1)
    ensures PagesStarted(LayLine(p, line, height, font).events) == PagesStarted(p.events)
  {
    var t := Text.Strip(line);
    WrapLongAdvance(p, t, height, font);
    var (q, rest) := WrapLong(p, t, height, font);
    if rest != [] {
      assert |Chunks(rest)| == 1;
      assert multiset(q.events + [DrawString(MARGIN, q.y, rest)]) == multiset(q.events) + multiset{DrawString(MARGIN, q.y, rest)};
    }
  }

  lemma {:induction false} WrapLongAdvance(p: Pen, t: string, height: int, font: string)
    requires p.y - LEADING * (|Chunks(t)| + 1) >= MARGIN
    ensures var (q, rest) := WrapLong(p, t, height, font);
      && q.y == p.y - LEADING * (|Chunks(t)| - |Chunks(rest)|)
      && PagesStarted(q.events) == PagesStarted(p.events)
      && (rest == [] <==> t == [])
      && |rest| <= CHUNK
    decreases |t|
  {
    if |t| > CHUNK {
      var d := DrawString(MARGIN, p.y, t[..CHUNK]);
      var drawn := Pen(p.y - LEADING, p.events + [d]);
      assert |Chunks(t)| == 1 + |Chunks(t[CHUNK..])|;
      assert NewPageIfLow(drawn, height, font) == drawn;
      assert multiset(p.events + [d]) == multiset(p.events) + multiset{d};
      WrapLongAdvance(drawn, t[CHUNK..], height, font);
    }
  }

  // ---- PDF to text ---------------------------------------------------------

  /** What one page adds to the text: its text and a blank line, or nothing when it is empty. */
  function PageText(page: string): string {
    if page != [] then page + "\n\n" else []
  }

  /** The text written for a PDF: every non-empty page's text followed by a blank line. */
  function PdfText(pages: seq<string>): string
    decreases |pages|
  {
    if pages == [] then [] else PageText(pages[0]) + PdfText(pages[1..])
  }

  /** Extracting two runs of pages one after the other gives the two texts one after the other. */
  lemma {:induction false} PdfTextAppend(a: seq<string>, b: seq<string>)
    ensures PdfText(a + b) == PdfText(a) + PdfText(b)
    decreases |a|
  {
    if a == [] {
      assert a + b == b;
    } else {
      assert (a + b)[0] == a[0];
      assert (a + b)[1..] == a[1..] + b;
      PdfTextAppend(a[1..], b);
    }
  }

  /** The page loop of the PDF-to-text conversion. */
  method ExtractText(pages: seq<string>) returns (text: string)
    ensures text == PdfText(pages)
  {
    text := [];
    for n := 0 to |pages|
      invariant text == PdfText(pages[..n])
    {
      var pageText := pages[n];
      if pageText != [] {
        text := text + pageText + "\n\n";
      }
      assert pages[..n + 1] == pages[..n] + [pages[n]];
      PdfTextAppend(pages[..n], [pages[n]]);
    }
    assert pages[..|pages|] == pages;
  }

  /** The text is empty exactly when every page's text is. */
  lemma {:induction false} PdfTextEmptyIff(pages: seq<string>)
    ensures PdfText(pages) == [] <==> forall i :: 0 <= i < |pages| ==> pages[i] == []
    decreases |pages|
  {
    if pages != [] {
      PdfTextEmptyIff(pages[1..]);
      assert forall i :: 1 <= i < |pages| ==> pages[1..][i - 1] == pages[i];
    }
  }

  /** A non-empty page's text appears whole, followed by a blank line, between the texts of the pages around it. */
  lemma PdfTextOfPage(pages: seq<string>, i: nat)
    requires i < |pages| && pages[i] != []
    ensures PdfText(pages) == PdfText(pages[..i]) + (pages[i] + "\n\n") + PdfText(pages[i + 1..])
  {
    var rest := pages[i..];
    assert pages == pages[..i] + rest;
    PdfTextAppend(pages[..i], rest);
    assert rest[0] == pages[i] && rest[1..] == pages[i + 1..];
  }

  // ---- PDF to DOCX ---------------------------------------------------------

  /** The calls made on the DOCX document, in order. */
  datatype Block = Heading(text: string, level: nat) | Paragraph(text: string) | PageBreak

  /** The level-0 title every converted document starts with ("converted from a PDF file"). */
  const DOCX_TITLE := "转换自PDF文件"

  /** The level-1 heading of page `n` (counted from 1). */
  function PageHeading(n: nat): string {
    "页面 " + Text.Decimal(n)
  }

  lemma PageHeadingInjective(m: nat, n: nat)
    requires PageHeading(m) == PageHeading(n)
    ensures m == n
  {
    assert PageHeading(m)[3..] == Text.Decimal(m);
    assert PageHeading(n)[3..] == Text.Decimal(n);
    Text.ParseDecimalOfDecimal(m);
    Text.ParseDecimalOfDecimal(n);
  }

  /**
   * What page `i` of `total` adds: a heading and its stripped text when the
   * page holds more than white space, then a page break unless it is the
   * last page.
   */
  function PageBlocks(text: string, i: nat, total: nat): seq<Block> {
    var t := Text.Strip(text);
    (if text != [] && t != [] then [Heading(PageHeading(i + 1), 1), Paragraph(t)] else [])
      + (if i + 1 < total then [PageBreak] else [])
  }

  function BlocksUpTo(pages: seq<string>, n: nat): seq<Block>
    requires n <= |pages|
    decreases n
  {
    if n == 0 then [] else BlocksUpTo(pages, n - 1) + PageBlocks(pages[n - 1], n - 1, |pages|)
  }

  function DocxBlocks(pages: seq<string>): seq<Block> {
    [Heading(DOCX_TITLE, 0)] + BlocksUpTo(pages, |pages|)
  }

  /** The value yielded after page `i` of `total`: 30 + floor((i + 1) / total * 60). */
  function PageProgress(i: nat, total: nat): int
    requires i < total
  {
    30 + (i + 1) * 60 / total
  }

  function DocxProgress(total: nat): seq<int> {
    seq(total, i requires 0 <= i < total => PageProgress(i, total))
  }

  /** The page loop of the PDF-to-DOCX conversion: the blocks added and the progress yielded per page. */
  method BuildDocx(pages: seq<string>) returns (blocks: seq<Block>, progress: seq<int>)
    ensures blocks == DocxBlocks(pages)
    ensures progress == DocxProgress(|pages|)
  {
    blocks := [Heading(DOCX_TITLE, 0)];
    progress := [];
    var total := |pages|;
    for pageNum := 0 to total
      invariant blocks == [Heading(DOCX_TITLE, 0)] + BlocksUpTo(pages, pageNum)
      invariant |progress| == pageNum
      invariant forall k :: 0 <= k < pageNum ==> progress[k] == PageProgress(k, total)
    {
      var text := pages[pageNum];
      blocks := AddPageBlocks(blocks, text, pageNum, total);
      assert BlocksUpTo(pages, pageNum + 1) == BlocksUpTo(pages, pageNum) + PageBlocks(text, pageNum, total);
      ConcatAssoc([Heading(DOCX_TITLE, 0)], BlocksUpTo(pages, pageNum), PageBlocks(text, pageNum, total));
      ghost var shown := progress;
      progress := progress + [PageProgress(pageNum, total)];
      assert forall k :: 0 <= k < pageNum ==> progress[k] == shown[k];
    }
    assert forall k :: 0 <= k < total ==> progress[k] == DocxProgress(total)[k];
  }

  /** One pass of the page loop: the heading and text of a page that holds any, then the page break. */
  method AddPageBlocks(blocks: seq<Block>, text: string, pageNum: nat, total: nat) returns (r: seq<Block>)
    ensures r == blocks + PageBlocks(text, pageNum, total)
  {
    var stripped := Text.Strip(text);
    r := blocks;
    PageBlocksCases(text, pageNum, total);
    if text != [] && stripped != [] {
      r := r + [Heading(PageHeading(pageNum + 1), 1), Paragraph(stripped)];
      if pageNum < total - 1 {
        r := r + [PageBreak];
        assert r == blocks + [Heading(PageHeading(pageNum + 1), 1), Paragraph(stripped), PageBreak];
      }
    } else if pageNum < total - 1 {
      r := r + [PageBreak];
    }
  }

  lemma ConcatAssoc(a: seq<Block>, b: seq<Block>, c: seq<Block>)
    ensures (a + b) + c == a + (b + c)
  {
  }

  /** The blocks of one page, case by case. */
  lemma PageBlocksCases(text: string, i: nat, total: nat)
    ensures var t := Text.Strip(text);
      PageBlocks(text, i, total) == (
        if text != [] && t != [] then
          (if i + 1 < total then [Heading(PageHeading(i + 1), 1), Paragraph(t), PageBreak]
           else [Heading(PageHeading(i + 1), 1), Paragraph(t)])
        else if i + 1 < total then [PageBreak] else [])
  {
  }

  /** The number of page breaks among `bs`. */
  function Breaks(bs: seq<Block>): nat
    decreases |bs|
  {
    if bs == [] then 0 else (if bs[0] == PageBreak then 1 else 0) + Breaks(bs[1..])
  }

  lemma {:induction false} BreaksOfConcat(a: seq<Block>, b: seq<Block>)
    ensures Breaks(a + b) == Breaks(a) + Breaks(b)
    decreases |a|
  {
    if a == [] {
      assert a + b == b;
    } else {
      assert (a + b)[0] == a[0];
      assert (a + b)[1..] == a[1..] + b;
      BreaksOfConcat(a[1..], b);
    }
  }

  lemma PageBreaksOfPage(text: string, i: nat, total: nat)
    ensures Breaks(PageBlocks(text, i, total)) == if i + 1 < total then 1 else 0
  {
    var t := Text.Strip(text);
    var head: seq<Block> := if text != [] && t != [] then [Heading(PageHeading(i + 1), 1), Paragraph(t)] else [];
    var tail: seq<Block> := if i + 1 < total then [PageBreak] else [];
    if head != [] {
      assert head[1..][1..] == [];
    }
    assert Breaks(head) == 0;
    BreaksOfConcat(head, tail);
  }

  lemma {:induction false} BreaksUpTo(pages: seq<string>, n: nat)
    requires n <= |pages|
    ensures Breaks(BlocksUpTo(pages, n)) == if n == |pages| && n > 0 then n - 1 else n
    decreases n
  {
    if n > 0 {
      var prev, page := BlocksUpTo(pages, n - 1), PageBlocks(pages[n - 1], n - 1, |pages|);
      BreaksUpTo(pages, n - 1);
      PageBreaksOfPage(pages[n - 1], n - 1, |pages|);
      BreaksOfConcat(prev, page);
    }
  }

  /** A document built from `n` pages holds exactly `n - 1` page breaks (none for no pages). */
  lemma DocxPageBreaks(pages: seq<string>)
    ensures Breaks(DocxBlocks(pages)) == if pages == [] then 0 else |pages| - 1
  {
    BreaksUpTo(pages, |pages|);
    BreaksOfConcat([Heading(DOCX_TITLE, 0)], BlocksUpTo(pages, |pages|));
  }

  lemma {:induction false} HeadingsUpTo(pages: seq<string>, n: nat, j: nat)
    requires n <= |pages|
    ensures Heading(PageHeading(j + 1), 1) in BlocksUpTo(pages, n)
      <==> j < n && Text.Strip(pages[j]) != []
    decreases n
  {
    if n > 0 {
      HeadingsUpTo(pages, n - 1, j);
      var i := n - 1;
      PageHeadingIn(pages[i], i, |pages|, j);
      assert BlocksUpTo(pages, n) == BlocksUpTo(pages, i) + PageBlocks(pages[i], i, |pages|);
    }
  }

  /** The blocks of page `i` hold the heading of page `j` exactly when `j` is `i` and the page holds text. */
  lemma PageHeadingIn(text: string, i: nat, total: nat, j: nat)
    ensures Heading(PageHeading(j + 1), 1) in PageBlocks(text, i, total) <==> j == i && Text.Strip(text) != []
  {
    PageBlocksCases(text, i, total);
    if Heading(PageHeading(j + 1), 1) in PageBlocks(text, i, total) {
      PageHeadingInjective(i + 1, j + 1);
    }
    if Text.Strip(text) != [] {
      assert text != [];
    }
  }

  /** Page `j` gets its heading exactly when its text holds more than white space. */
  lemma DocxPageHeadings(pages: seq<string>, j: nat)
    requires j < |pages|
    ensures Heading(PageHeading(j + 1), 1) in DocxBlocks(pages) <==> Text.Strip(pages[j]) != []
  {
    HeadingsUpTo(pages, |pages|, j);
    assert Heading(PageHeading(j + 1), 1) != Heading(DOCX_TITLE, 0);
  }

  lemma MulMonotone(t: int, x: int, y: int)
    requires t >= 0
    ensures x <= y ==> t * x <= t * y
  {
    if x <= y {
      assert t * y - t * x == t * (y - x);
    }
  }

  lemma DivMonotone(a: int, b: int, t: int)
    requires 0 <= a <= b && t > 0
    ensures a / t <= b / t
  {
    var qa, qb := a / t, b / t;
    MulMonotone(t, qb + 1, qa);
    assert t * (qb + 1) == t * qb + t;
  }

  lemma DivExact(k: int, t: int)
    requires t > 0
    ensures (k * t) / t == k
  {
    var q := (k * t) / t;
    var r := (k * t) % t;
    assert k * t == t * q + r;
    MulMonotone(t, 1, q - k);
    MulMonotone(t, 1, k - q);
    assert t * (q - k) == t * q - t * k;
    assert t * (k - q) == t * k - t * q;
  }

  lemma PageProgressBounds(i: nat, total: nat)
    requires i < total
    ensures 30 <= PageProgress(i, total) <= 90
    ensures i == total - 1 ==> PageProgress(i, total) == 90
  {
    MulMonotone(60, i + 1, total);
    DivMonotone((i + 1) * 60, total * 60, total);
    DivMonotone(0, (i + 1) * 60, total);
    DivExact(60, total);
    assert 60 * total == total * 60;
  }

  /**
   * The per-page progress values never go down, stay between 30 and 90,
   * and reach 90 on the last page.
   */
  lemma DocxProgressShape(total: nat)
    ensures forall i, j :: 0 <= i <= j < total ==> DocxProgress(total)[i] <= DocxProgress(total)[j]
    ensures forall i :: 0 <= i < total ==> 30 <= DocxProgress(total)[i] <= 90
    ensures total > 0 ==> DocxProgress(total)[total - 1] == 90
  {
    var p := DocxProgress(total);
    forall i, j | 0 <= i <= j < total
      ensures p[i] <= p[j]
    {
      DivMonotone((i + 1) * 60, (j + 1) * 60, total);
    }
    forall i | 0 <= i < total
      ensures 30 <= p[i] <= 90
    {
      PageProgressBounds(i, total);
    }
    if total > 0 {
      PageProgressBounds(total - 1, total);
    }
  }

  // ---- PDF to images -------------------------------------------------------

  /**
   * The file page `i` (from 0) of a `total`-page PDF is saved to: the output
   * path itself for a single page, otherwise the output's stem, an
   * underscore, the two-digit page number and the output's extension.
   */
  function PageImageName(output: string, i: nat, total: nat): string {
    if total > 1 then Paths.Stem(output) + "_" + Text.Pad2(i + 1) + Paths.Ext(output) else output
  }

  function PageImageNames(output: string, total: nat): seq<string> {
    seq(total, i requires 0 <= i => PageImageName(output, i, total))
  }

  /** The image format name: the upper-cased extension without its dot, with JPG spelled JPEG. */
  function ImageSaveFormat(output: string): string {
    var e := Text.Upper(Paths.Ext(output));
    var f := if e == [] then [] else e[1..];
    if f == "JPG" then "JPEG" else f
  }

  /** The index of the first name that did not appear on disk, if any. */
  function FirstMissing(names: seq<string>, appears: set<string>): (r: Option<nat>)
    ensures r.Some? ==> (r.value < |names| && names[r.value] !in appears
      && forall k :: 0 <= k < r.value ==> names[k] in appears)
    ensures r.None? ==> forall k :: 0 <= k < |names| ==> names[k] in appears
    decreases |names|
  {
    if names == [] then None
    else if names[0] !in appears then Some(0)
    else match FirstMissing(names[1..], appears)
      case None => None
      case Some(k) => Some(k + 1)
  }

  /**
   * The page loop of the PDF-to-image conversion: saves each page and stops
   * at the first file that did not appear; `saved` lists the files written.
   */
  method SavePageImages(output: string, total: nat, appears: set<string>)
    returns (saved: seq<(string, string)>, missing: Option<nat>)
    ensures missing == FirstMissing(PageImageNames(output, total), appears)
    ensures |saved| == (if missing.Some? then missing.value + 1 else total)
    ensures forall k :: 0 <= k < |saved| ==> saved[k] == (PageImageNames(output, total)[k], ImageSaveFormat(output))
  {
    saved, missing := SaveEach(PageImageNames(output, total), ImageSaveFormat(output), appears);
  }

  /** Saves the files in order under one format, stopping after the first that did not appear. */
  method SaveEach(names: seq<string>, format: string, appears: set<string>)
    returns (saved: seq<(string, string)>, missing: Option<nat>)
    ensures missing == FirstMissing(names, appears)
    ensures |saved| == (if missing.Some? then missing.value + 1 else |names|)
    ensures forall k :: 0 <= k < |saved| ==> saved[k] == (names[k], format)
  {
    saved := [];
    missing := None;
    var pageNum := 0;
    while pageNum < |names|
      invariant 0 <= pageNum <= |names| && |saved| == pageNum
      invariant forall k :: 0 <= k < pageNum ==> saved[k] == (names[k], format)
      invariant forall k :: 0 <= k < pageNum ==> names[k] in appears
    {
      var file := names[pageNum];
      SavedGrows(saved, (file, format));
      saved := saved + [(file, format)];
      if file !in appears {
        missing := Some(pageNum);
        FirstMissingAt(names, appears, pageNum);
        return;
      }
      pageNum := pageNum + 1;
    }
    FirstMissingNone(names, appears);
  }

  lemma SavedGrows(saved: seq<(string, string)>, x: (string, string))
    ensures forall k :: 0 <= k < |saved| ==> (saved + [x])[k] == saved[k]
    ensures (saved + [x])[|saved|] == x
  {
  }

  lemma {:induction false} FirstMissingAt(names: seq<string>, appears: set<string>, i: nat)
    requires i < |names| && names[i] !in appears
    requires forall k :: 0 <= k < i ==> names[k] in appears
    ensures FirstMissing(names, appears) == Some(i)
  {
    var r := FirstMissing(names, appears);
    assert r.Some?;
  }

  lemma FirstMissingNone(names: seq<string>, appears: set<string>)
    requires forall k :: 0 <= k < |names| ==> names[k] in appears
    ensures FirstMissing(names, appears) == None
  {
  }

  /** A multi-page PDF gets one distinct file per page, none of them the output path itself. */
  lemma PageImageNamesDistinct(output: string, total: nat, i: nat, j: nat)
    requires i < total && j < total && total > 1
    ensures i != j ==> PageImageName(output, i, total) != PageImageName(output, j, total)
    ensures PageImageName(output, i, total) != output
  {
    var stem, ext := Paths.Stem(output), Paths.Ext(output);
    Paths.StemExtRoundTrip(output);
    var a, b := PageImageName(output, i, total), PageImageName(output, j, total);
    if i != j && a == b {
      var lo := |stem| + 1;
      assert |Text.Pad2(i + 1)| == |Text.Pad2(j + 1)|;
      assert a[lo..|a| - |ext|] == Text.Pad2(i + 1);
      assert b[lo..|b| - |ext|] == Text.Pad2(j + 1);
      Text.Pad2Injective(i + 1, j + 1);
    }
  }

  /** Whether the extension is written `.jpg` or `.JPEG`, the image is saved as JPEG. */
  lemma JpegSaveFormat(output: string)
    requires Text.Lower(Paths.Ext(output)) in [".jpg", ".jpeg"]
    ensures ImageSaveFormat(output) == "JPEG"
  {
    var e := Paths.Ext(output);
    var l := Text.Lower(e);
    Text.UpperOfLower(e);
    if l == ".jpg" {
      assert Text.Upper(l) == ".JPG";
    } else {
      assert Text.Upper(l) == ".JPEG";
    }
  }
}
