/**
 * The part of the document tree that the package-level drawing sanitizer walks (src/docx.rs): block content
 * of a body, header or footer; paragraphs; their runs; and the drawings inside those runs. Each level is a
 * value the crate updates in place through `&mut` iteration, so each walk is a method taking the old value
 * and returning the new one, proved against a function that states the result.
 */
module DocumentTree {
  import Wrappers
  import Drawing
  import Runs
  import Hyperlink

  datatype ParagraphContent =
    | RunItem(run: Runs.Run)
    | LinkItem(link: Hyperlink.Hyperlink)
    | OtherInline(tag: string)

  datatype Paragraph = Paragraph(content: seq<ParagraphContent>)

  /** `BodyContent`: paragraphs, tables (kept as the paragraphs of their cells), and anything else. */
  datatype BodyContent =
    | ParagraphBlock(paragraph: Paragraph)
    | TableBlock(cells: seq<Paragraph>)
    | OtherBlock(tag: string)

  // ---------------------------------------------------------------- what the walk produces

  function SanitizedItem(c: Runs.RunContent): Runs.RunContent
  {
    if c.DrawingItem? then Runs.DrawingItem(Drawing.Sanitized(c.drawing)) else c
  }

  function SanitizedItems(items: seq<Runs.RunContent>): (r: seq<Runs.RunContent>)
    ensures |r| == |items| && forall i :: 0 <= i < |items| ==> r[i] == SanitizedItem(items[i])
  {
    if items == [] then [] else SanitizedItems(items[..|items| - 1]) + [SanitizedItem(items[|items| - 1])]
  }

  function SanitizedRun(r: Runs.Run): Runs.Run
  {
    Runs.Run(SanitizedItems(r.content))
  }

  /** Only direct runs are walked; hyperlinks and other inline content are kept as they are. */
  function SanitizedInline(c: ParagraphContent): ParagraphContent
  {
    if c.RunItem? then RunItem(SanitizedRun(c.run)) else c
  }

  function SanitizedInlines(cs: seq<ParagraphContent>): (r: seq<ParagraphContent>)
    ensures |r| == |cs| && forall i :: 0 <= i < |cs| ==> r[i] == SanitizedInline(cs[i])
  {
    if cs == [] then [] else SanitizedInlines(cs[..|cs| - 1]) + [SanitizedInline(cs[|cs| - 1])]
  }

  function SanitizedParagraph(p: Paragraph): Paragraph
  {
    Paragraph(SanitizedInlines(p.content))
  }

  /** Only paragraph blocks are walked; tables and other blocks are kept as they are. */
  function SanitizedBlock(b: BodyContent): BodyContent
  {
    if b.ParagraphBlock? then ParagraphBlock(SanitizedParagraph(b.paragraph)) else b
  }

  function SanitizedBlocks(bs: seq<BodyContent>): (r: seq<BodyContent>)
    ensures |r| == |bs| && forall i :: 0 <= i < |bs| ==> r[i] == SanitizedBlock(bs[i])
  {
    if bs == [] then [] else SanitizedBlocks(bs[..|bs| - 1]) + [SanitizedBlock(bs[|bs| - 1])]
  }

  // ---------------------------------------------------------------- the walk

  /** `for run_content in &mut run.content`: sanitizes each drawing of a run. */
  method SanitizeRun(r: Runs.Run) returns (r': Runs.Run)
    ensures r' == SanitizedRun(r)
  {
    r' := r;
    var k := 0;
    while k < |r.content|
      invariant 0 <= k <= |r.content| == |r'.content|
      invariant forall m :: 0 <= m < k ==> r'.content[m] == SanitizedItem(r.content[m])
      invariant forall m :: k <= m < |r.content| ==> r'.content[m] == r.content[m]
    {
      if r'.content[k].DrawingItem? {
        // The drawing sanitizer never fails, so the `?` after it never returns early.
        var d', _ := Drawing.SanitizeForCompatibility(r'.content[k].drawing);
        r' := r'.(content := r'.content[k := Runs.DrawingItem(d')]);
      }
      k := k + 1;
    }
  }

  /** `for run in &mut paragraph.content`: walks the direct runs of a paragraph. */
  method SanitizeParagraph(p: Paragraph) returns (p': Paragraph)
    ensures p' == SanitizedParagraph(p)
  {
    p' := p;
    var j := 0;
    while j < |p.content|
      invariant 0 <= j <= |p.content| == |p'.content|
      invariant forall m :: 0 <= m < j ==> p'.content[m] == SanitizedInline(p.content[m])
      invariant forall m :: j <= m < |p.content| ==> p'.content[m] == p.content[m]
    {
      if p'.content[j].RunItem? {
        var run' := SanitizeRun(p'.content[j].run);
        p' := p'.(content := p'.content[j := RunItem(run')]);
      }
      j := j + 1;
    }
  }

  /** `for content in &mut ...content`: walks the paragraph blocks of a body, header or footer. */
  method SanitizeBlocks(bs: seq<BodyContent>) returns (bs': seq<BodyContent>)
    ensures bs' == SanitizedBlocks(bs)
  {
    bs' := bs;
    var i := 0;
    while i < |bs|
      invariant 0 <= i <= |bs| == |bs'|
      invariant forall m :: 0 <= m < i ==> bs'[m] == SanitizedBlock(bs[m])
      invariant forall m :: i <= m < |bs| ==> bs'[m] == bs[m]
    {
      if bs'[i].ParagraphBlock? {
        var p' := SanitizeParagraph(bs'[i].paragraph);
        bs' := bs'[i := ParagraphBlock(p')];
      }
      i := i + 1;
    }
  }

  // ---------------------------------------------------------------- properties of the walk

  /** Every drawing the walk reaches: in a run directly inside a paragraph block. */
  predicate VisitedDrawingsUnanchored(bs: seq<BodyContent>)
  {
    forall i, j, k :: 0 <= i < |bs| && bs[i].ParagraphBlock?
      && 0 <= j < |bs[i].paragraph.content| && bs[i].paragraph.content[j].RunItem?
      && 0 <= k < |bs[i].paragraph.content[j].run.content| && bs[i].paragraph.content[j].run.content[k].DrawingItem?
      ==> bs[i].paragraph.content[j].run.content[k].drawing.anchor.None?
  }

  /** After the walk, no drawing it reaches still has an anchor. */
  lemma WalkLeavesNoAnchor(bs: seq<BodyContent>)
    ensures VisitedDrawingsUnanchored(SanitizedBlocks(bs))
  {
    var out := SanitizedBlocks(bs);
    forall i, j, k | 0 <= i < |out| && out[i].ParagraphBlock?
      && 0 <= j < |out[i].paragraph.content| && out[i].paragraph.content[j].RunItem?
      && 0 <= k < |out[i].paragraph.content[j].run.content| && out[i].paragraph.content[j].run.content[k].DrawingItem?
      ensures out[i].paragraph.content[j].run.content[k].drawing.anchor.None?
    {
      assert bs[i].ParagraphBlock?;
      assert bs[i].paragraph.content[j].RunItem?;
      assert bs[i].paragraph.content[j].run.content[k].DrawingItem?;
    }
  }

  /** Tables are not entered and hyperlinks are not entered: drawings there keep their anchors. */
  lemma TablesAndLinksUntouched(bs: seq<BodyContent>)
    ensures forall i :: 0 <= i < |bs| && !bs[i].ParagraphBlock? ==> SanitizedBlocks(bs)[i] == bs[i]
    ensures forall i, j ::
      (0 <= i < |bs| && bs[i].ParagraphBlock? && 0 <= j < |bs[i].paragraph.content| && !bs[i].paragraph.content[j].RunItem?)
      ==> SanitizedBlocks(bs)[i].paragraph.content[j] == bs[i].paragraph.content[j]
  {
  }

  /** The tree with every drawing the walk reaches blanked out: what the walk must leave unchanged. */
  function ErasedItem(c: Runs.RunContent): Runs.RunContent
  {
    if c.DrawingItem? then Runs.DrawingItem(Drawing.Drawing(Wrappers.None, Wrappers.None)) else c
  }

  function ErasedItems(items: seq<Runs.RunContent>): (r: seq<Runs.RunContent>)
    ensures |r| == |items| && forall i :: 0 <= i < |items| ==> r[i] == ErasedItem(items[i])
  {
    if items == [] then [] else ErasedItems(items[..|items| - 1]) + [ErasedItem(items[|items| - 1])]
  }

  function ErasedInline(c: ParagraphContent): ParagraphContent
  {
    if c.RunItem? then RunItem(Runs.Run(ErasedItems(c.run.content))) else c
  }

  function ErasedInlines(cs: seq<ParagraphContent>): (r: seq<ParagraphContent>)
    ensures |r| == |cs| && forall i :: 0 <= i < |cs| ==> r[i] == ErasedInline(cs[i])
  {
    if cs == [] then [] else ErasedInlines(cs[..|cs| - 1]) + [ErasedInline(cs[|cs| - 1])]
  }

  function ErasedBlock(b: BodyContent): BodyContent
  {
    if b.ParagraphBlock? then ParagraphBlock(Paragraph(ErasedInlines(b.paragraph.content))) else b
  }

  function ErasedBlocks(bs: seq<BodyContent>): (r: seq<BodyContent>)
    ensures |r| == |bs| && forall i :: 0 <= i < |bs| ==> r[i] == ErasedBlock(bs[i])
  {
    if bs == [] then [] else ErasedBlocks(bs[..|bs| - 1]) + [ErasedBlock(bs[|bs| - 1])]
  }

  lemma ItemsErasure(items: seq<Runs.RunContent>)
    ensures ErasedItems(SanitizedItems(items)) == ErasedItems(items)
  {
    var a, b := ErasedItems(SanitizedItems(items)), ErasedItems(items);
    assert |a| == |b|;
    forall k | 0 <= k < |items|
      ensures a[k] == b[k]
    {
    }
  }

  lemma InlinesErasure(cs: seq<ParagraphContent>)
    ensures ErasedInlines(SanitizedInlines(cs)) == ErasedInlines(cs)
  {
    forall j | 0 <= j < |cs|
      ensures ErasedInline(SanitizedInline(cs[j])) == ErasedInline(cs[j])
    {
      if cs[j].RunItem? {
        ItemsErasure(cs[j].run.content);
      }
    }
  }

  /** Nothing but the visited drawings changes: with those blanked out, the tree before and after is the same. */
  lemma WalkChangesOnlyDrawings(bs: seq<BodyContent>)
    ensures ErasedBlocks(SanitizedBlocks(bs)) == ErasedBlocks(bs)
  {
    forall i | 0 <= i < |bs|
      ensures ErasedBlock(SanitizedBlock(bs[i])) == ErasedBlock(bs[i])
    {
      if bs[i].ParagraphBlock? {
        InlinesErasure(bs[i].paragraph.content);
      }
    }
  }

  lemma ItemsIdempotent(items: seq<Runs.RunContent>)
    ensures SanitizedItems(SanitizedItems(items)) == SanitizedItems(items)
  {
    forall k | 0 <= k < |items|
      ensures SanitizedItem(SanitizedItem(items[k])) == SanitizedItem(items[k])
    {
      if items[k].DrawingItem? {
        Drawing.SanitizeIdempotent(items[k].drawing);
      }
    }
  }

  lemma InlinesIdempotent(cs: seq<ParagraphContent>)
    ensures SanitizedInlines(SanitizedInlines(cs)) == SanitizedInlines(cs)
  {
    forall j | 0 <= j < |cs|
      ensures SanitizedInline(SanitizedInline(cs[j])) == SanitizedInline(cs[j])
    {
      if cs[j].RunItem? {
        ItemsIdempotent(cs[j].run.content);
      }
    }
  }

  /** A second walk changes nothing. */
  lemma WalkIdempotent(bs: seq<BodyContent>)
    ensures SanitizedBlocks(SanitizedBlocks(bs)) == SanitizedBlocks(bs)
  {
    forall i | 0 <= i < |bs|
      ensures SanitizedBlock(SanitizedBlock(bs[i])) == SanitizedBlock(bs[i])
    {
      if bs[i].ParagraphBlock? {
        InlinesIdempotent(bs[i].paragraph.content);
      }
    }
  }
}
