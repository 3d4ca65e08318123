/**
 * The "safe mode" template: a drawing is either a floating anchor or an inline picture; anchors with any
 * fragile feature are replaced by a plain inline, with one warning each; a read-only validator reports
 * anchors whose horizontal position carries neither an alignment nor an offset; and the save entry points
 * run both on a copy of the document.
 */
module SafeMode {
  import opened Wrappers
  import opened Errors
  import Seqs
  import RequiredElements

  /** The template's anchor: positions that may carry an alignment, and optional effect and size extents. */
  datatype Anchor = Anchor(
    positionH: RequiredElements.PositionH, positionV: RequiredElements.PositionV,
    effectExtent: Option<RequiredElements.EffectExtent>,
    sizeRelH: Option<RequiredElements.SizeRelH>, sizeRelV: Option<RequiredElements.SizeRelV>,
    behindDoc: bool, simplePos: bool,
    distT: RequiredElements.U32, distB: RequiredElements.U32, distL: RequiredElements.U32, distR: RequiredElements.U32,
    extent: RequiredElements.Extent, docPr: RequiredElements.DocPr, graphic: RequiredElements.Graphic)

  datatype Inline = Inline(
    extent: RequiredElements.Extent, docPr: RequiredElements.DocPr, graphic: RequiredElements.Graphic,
    distT: RequiredElements.U32, distB: RequiredElements.U32, distL: RequiredElements.U32, distR: RequiredElements.U32)

  /** `DrawingType`: exactly one of the two forms. */
  datatype DrawingType = AnchorDrawing(anchor: Anchor) | InlineDrawing(inline: Inline)

  datatype Drawing = Drawing(drawingType: DrawingType)

  datatype Warning =
    | ComplexAnchorConverted(reason: string)
    | MissingRequiredElements(elements: seq<string>)
    | InvalidBooleanFormat(field: string)

  const CONVERTED_REASON := "Complex wp:anchor converted to wp:inline for compatibility"
  const MISSING_POSITION_H := "positionH.align or positionH.posOffset"

  // ---------------------------------------------------------------- one drawing

  /** `is_complex_anchor`: any alignment, effect or relative size, a behind-text z-order, or no simple positioning. */
  predicate IsComplexAnchor(a: Anchor)
  {
    a.positionH.align.Some? || a.positionV.align.Some? || a.effectExtent.Some?
    || a.sizeRelH.Some? || a.sizeRelV.Some? || a.behindDoc || !a.simplePos
  }

  /** An anchor placed by offsets alone, in text order, with no extras: the anchors the sanitizer keeps. */
  predicate IsPlainAnchor(a: Anchor)
  {
    a.positionH.align == None && a.positionV.align == None && a.effectExtent == None
    && a.sizeRelH == None && a.sizeRelV == None && a.behindDoc == false && a.simplePos == true
  }

  lemma ComplexIsNotPlain(a: Anchor)
    ensures IsComplexAnchor(a) <==> !IsPlainAnchor(a)
  {
  }

  /** `anchor_to_simple_inline`: keeps the size, description and picture; all four distances become 0. */
  function AnchorToSimpleInline(a: Anchor): (r: DocxResult<Inline>)
    ensures r.Ok?
    ensures r.value.extent == a.extent && r.value.docPr == a.docPr && r.value.graphic == a.graphic
    ensures r.value.distT == 0 && r.value.distB == 0 && r.value.distL == 0 && r.value.distR == 0
  {
    Ok(Inline(a.extent, a.docPr, a.graphic, 0, 0, 0, 0))
  }

  /** The drawing `sanitize_for_compatibility` leaves behind. */
  function SanitizedDrawing(d: Drawing): Drawing
  {
    if d.drawingType.AnchorDrawing? && IsComplexAnchor(d.drawingType.anchor)
    then Drawing(InlineDrawing(AnchorToSimpleInline(d.drawingType.anchor).value))
    else d
  }

  /** The warnings `sanitize_for_compatibility` returns for a drawing. */
  function DrawingWarnings(d: Drawing): seq<Warning>
  {
    if d.drawingType.AnchorDrawing? && IsComplexAnchor(d.drawingType.anchor)
    then [ComplexAnchorConverted(CONVERTED_REASON)]
    else []
  }

  /** `Drawing::sanitize_for_compatibility`: replaces a complex anchor by its inline and reports it. */
  method SanitizeForCompatibility(d: Drawing) returns (d': Drawing, r: DocxResult<seq<Warning>>)
    ensures d' == SanitizedDrawing(d) && r == Ok(DrawingWarnings(d))
  {
    var warnings: seq<Warning> := [];
    d' := d;
    match d.drawingType {
      case AnchorDrawing(anchor) =>
        if IsComplexAnchor(anchor) {
          warnings := warnings + [ComplexAnchorConverted(CONVERTED_REASON)];
          var inline := AnchorToSimpleInline(anchor);
          d' := Drawing(InlineDrawing(inline.value));
          assert warnings == [ComplexAnchorConverted(CONVERTED_REASON)];
          assert d' == SanitizedDrawing(d);
        }
      case InlineDrawing(_) =>
    }
    r := Ok(warnings);
  }

  /**
   * One sanitizing step on a drawing: inlines are untouched and quiet; a complex anchor becomes an inline
   * with exactly one warning; a plain anchor stays with none. So a drawing is changed exactly when it is
   * reported, and a second pass is quiet and changes nothing.
   */
  lemma DrawingSanitizeFacts(d: Drawing)
    ensures d.drawingType.InlineDrawing? ==> SanitizedDrawing(d) == d && DrawingWarnings(d) == []
    ensures d.drawingType.AnchorDrawing? && IsComplexAnchor(d.drawingType.anchor) ==>
      SanitizedDrawing(d).drawingType.InlineDrawing? && DrawingWarnings(d) == [ComplexAnchorConverted(CONVERTED_REASON)]
    ensures d.drawingType.AnchorDrawing? && IsPlainAnchor(d.drawingType.anchor) ==>
      SanitizedDrawing(d) == d && DrawingWarnings(d) == []
    ensures DrawingWarnings(d) == [] <==> SanitizedDrawing(d) == d
    ensures SanitizedDrawing(SanitizedDrawing(d)) == SanitizedDrawing(d) && DrawingWarnings(SanitizedDrawing(d)) == []
  {
  }

  /** The validator's findings for one drawing. */
  function DrawingValidation(d: Drawing): seq<Warning>
  {
    if d.drawingType.AnchorDrawing?
       && d.drawingType.anchor.positionH.align.None? && d.drawingType.anchor.positionH.posOffset.None?
    then [MissingRequiredElements([MISSING_POSITION_H])]
    else []
  }

  /**
   * The validator flags exactly the anchors whose horizontal position `PositionH::validate` rejects as missing;
   * a position with both an alignment and an offset, and every vertical position, pass unreported.
   */
  lemma ValidationMatchesPositionH(d: Drawing)
    ensures DrawingValidation(d) != [] <==>
      d.drawingType.AnchorDrawing?
      && RequiredElements.ValidatePositionH(d.drawingType.anchor.positionH)
        == Err(RequiredElements.MissingRequiredElement(RequiredElements.POSITION_H_MISSING))
  {
  }

  /**
   * An anchor with no horizontal alignment or offset that is otherwise plain is kept by the sanitizer, quietly,
   * and is still reported by the validator: safe mode does not repair the position it warns about.
   */
  lemma MissingPositionSurvivesSanitizing(a: Anchor)
    requires IsPlainAnchor(a) && a.positionH.posOffset.None?
    ensures var d := Drawing(AnchorDrawing(a));
      SanitizedDrawing(d) == d && DrawingWarnings(d) == [] && DrawingValidation(d) == [MissingRequiredElements([MISSING_POSITION_H])]
  {
  }

  // ---------------------------------------------------------------- the document body

  datatype Run = Run(drawing: Option<Drawing>, text: string)
  datatype Paragraph = Paragraph(runs: seq<Run>)

  function SanitizedRun(r: Run): Run
  {
    if r.drawing.Some? then r.(drawing := Some(SanitizedDrawing(r.drawing.value))) else r
  }

  function RunWarnings(r: Run): seq<Warning>
  {
    if r.drawing.Some? then DrawingWarnings(r.drawing.value) else []
  }

  function RunValidation(r: Run): seq<Warning>
  {
    if r.drawing.Some? then DrawingValidation(r.drawing.value) else []
  }

  function SanitizedRuns(runs: seq<Run>): (r: seq<Run>)
    ensures |r| == |runs| && forall i :: 0 <= i < |runs| ==> r[i] == SanitizedRun(runs[i])
  {
    if runs == [] then [] else SanitizedRuns(runs[..|runs| - 1]) + [SanitizedRun(runs[|runs| - 1])]
  }

  function SanitizedParagraphs(ps: seq<Paragraph>): (r: seq<Paragraph>)
    ensures |r| == |ps| && forall i :: 0 <= i < |ps| ==> r[i] == Paragraph(SanitizedRuns(ps[i].runs))
  {
    if ps == [] then [] else SanitizedParagraphs(ps[..|ps| - 1]) + [Paragraph(SanitizedRuns(ps[|ps| - 1].runs))]
  }

  /** The sanitizer's warnings for runs, in run order. */
  function RunsWarnings(runs: seq<Run>): seq<Warning>
  {
    if runs == [] then [] else RunsWarnings(runs[..|runs| - 1]) + RunWarnings(runs[|runs| - 1])
  }

  /** The sanitizer's warnings for the body, paragraph after paragraph. */
  function BodyWarnings(ps: seq<Paragraph>): seq<Warning>
  {
    if ps == [] then [] else BodyWarnings(ps[..|ps| - 1]) + RunsWarnings(ps[|ps| - 1].runs)
  }

  function RunsValidation(runs: seq<Run>): seq<Warning>
  {
    if runs == [] then [] else RunsValidation(runs[..|runs| - 1]) + RunValidation(runs[|runs| - 1])
  }

  function BodyValidation(ps: seq<Paragraph>): seq<Warning>
  {
    if ps == [] then [] else BodyValidation(ps[..|ps| - 1]) + RunsValidation(ps[|ps| - 1].runs)
  }

  /** Sanitizes the drawings of one paragraph's runs, collecting their warnings in run order. */
  method SanitizeParagraph(p: Paragraph) returns (p': Paragraph, warnings: seq<Warning>)
    ensures p' == Paragraph(SanitizedRuns(p.runs)) && warnings == RunsWarnings(p.runs)
  {
    p' := p;
    warnings := [];
    var j := 0;
    while j < |p.runs|
      invariant 0 <= j <= |p.runs| == |p'.runs|
      invariant forall k :: 0 <= k < j ==> p'.runs[k] == SanitizedRun(p.runs[k])
      invariant forall k :: j <= k < |p.runs| ==> p'.runs[k] == p.runs[k]
      invariant warnings == RunsWarnings(p.runs[..j])
    {
      assert p.runs[..j + 1][..j] == p.runs[..j];
      var run := p'.runs[j];
      if run.drawing.Some? {
        var d', r := SanitizeForCompatibility(run.drawing.value);
        warnings := warnings + r.value;
        p' := p'.(runs := p'.runs[j := run.(drawing := Some(d'))]);
      }
      j := j + 1;
    }
    assert p.runs[..j] == p.runs;
  }

  /** Collects the validator's findings for one paragraph's runs. */
  method ValidateParagraph(p: Paragraph) returns (warnings: seq<Warning>)
    ensures warnings == RunsValidation(p.runs)
  {
    warnings := [];
    var j := 0;
    while j < |p.runs|
      invariant 0 <= j <= |p.runs|
      invariant warnings == RunsValidation(p.runs[..j])
    {
      assert p.runs[..j + 1][..j] == p.runs[..j];
      var run := p.runs[j];
      if run.drawing.Some? {
        var d := run.drawing.value;
        if d.drawingType.AnchorDrawing? {
          var anchor := d.drawingType.anchor;
          if anchor.positionH.align.None? && anchor.positionH.posOffset.None? {
            warnings := warnings + [MissingRequiredElements([MISSING_POSITION_H])];
          }
        }
      }
      j := j + 1;
    }
    assert p.runs[..j] == p.runs;
  }

  /** The template's document: the body's paragraphs, which the sanitizer rewrites in place. */
  class Docx {
    var paragraphs: seq<Paragraph>

    constructor (paragraphs: seq<Paragraph>)
      ensures this.paragraphs == paragraphs
    {
      this.paragraphs := paragraphs;
    }

    /** `Docx::sanitize_all_drawings`: body paragraphs only, warnings in body order. */
    method SanitizeAllDrawings() returns (r: DocxResult<seq<Warning>>)
      modifies this
      ensures paragraphs == SanitizedParagraphs(old(paragraphs))
      ensures r == Ok(BodyWarnings(old(paragraphs)))
    {
      ghost var ps := paragraphs;
      var all := [];
      var i := 0;
      while i < |paragraphs|
        invariant 0 <= i <= |paragraphs| == |ps|
        invariant forall k :: 0 <= k < i ==> paragraphs[k] == Paragraph(SanitizedRuns(ps[k].runs))
        invariant forall k :: i <= k < |ps| ==> paragraphs[k] == ps[k]
        invariant all == BodyWarnings(ps[..i])
      {
        assert ps[..i + 1][..i] == ps[..i];
        var p', warnings := SanitizeParagraph(paragraphs[i]);
        paragraphs := paragraphs[i := p'];
        all := all + warnings;
        i := i + 1;
      }
      assert ps[..i] == ps;
      r := Ok(all);
    }

    /** `Docx::validate_drawing_compatibility`: reads the body and changes nothing. */
    method ValidateDrawingCompatibility() returns (warnings: seq<Warning>)
      ensures warnings == BodyValidation(paragraphs)
    {
      warnings := [];
      var i := 0;
      while i < |paragraphs|
        invariant 0 <= i <= |paragraphs|
        invariant warnings == BodyValidation(paragraphs[..i])
      {
        assert paragraphs[..i + 1][..i] == paragraphs[..i];
        var w := ValidateParagraph(paragraphs[i]);
        warnings := warnings + w;
        i := i + 1;
      }
      assert paragraphs[..i] == paragraphs;
    }

    /**
     * `Docx::save_with_options`: works on a copy, so the document itself is unchanged; validation findings
     * come before the sanitizer's warnings; the copy, sanitized when asked, is what `save` receives.
     */
    method SaveWithOptions(validateDrawings: bool, useCompatibilityMode: bool, save: seq<Paragraph> -> DocxResult<()>)
      returns (r: DocxResult<seq<Warning>>)
      ensures var saved := if useCompatibilityMode then SanitizedParagraphs(paragraphs) else paragraphs;
        r == if save(saved).Err? then Err(save(saved).error)
             else Ok((if validateDrawings then BodyValidation(paragraphs) else [])
                     + (if useCompatibilityMode then BodyWarnings(paragraphs) else []))
    {
      var doc := new Docx(paragraphs);
      var warnings: seq<Warning> := [];
      if validateDrawings {
        var validation := doc.ValidateDrawingCompatibility();
        warnings := warnings + validation;
      }
      if useCompatibilityMode {
        var compat := doc.SanitizeAllDrawings();
        warnings := warnings + compat.value;
      }
      assert doc.paragraphs == if useCompatibilityMode then SanitizedParagraphs(paragraphs) else paragraphs;
      assert warnings == (if validateDrawings then BodyValidation(paragraphs) else [])
                     + (if useCompatibilityMode then BodyWarnings(paragraphs) else []);
      var saved := save(doc.paragraphs);
      if saved.Err? {
        return Err(saved.error);
      }
      r := Ok(warnings);
    }

    /** `Docx::save_compatible`: sanitizes a copy, saves it, and returns the sanitizer's warnings. */
    method SaveCompatible(save: seq<Paragraph> -> DocxResult<()>) returns (r: DocxResult<seq<Warning>>)
      ensures r == if save(SanitizedParagraphs(paragraphs)).Err? then Err(save(SanitizedParagraphs(paragraphs)).error)
                   else Ok(BodyWarnings(paragraphs))
    {
      var doc := new Docx(paragraphs);
      var warnings := doc.SanitizeAllDrawings();
      var saved := save(doc.paragraphs);
      if saved.Err? {
        return Err(saved.error);
      }
      r := Ok(warnings.value);
    }
  }

  // ---------------------------------------------------------------- body-level properties

  /** Every sanitizer warning reports a conversion, and the body gets none exactly when nothing changes. */
  lemma {:induction false} RunsWarningsMeanChange(runs: seq<Run>)
    ensures forall w :: w in RunsWarnings(runs) ==> w == ComplexAnchorConverted(CONVERTED_REASON)
    ensures RunsWarnings(runs) == [] <==> SanitizedRuns(runs) == runs
    decreases |runs|
  {
    if runs != [] {
      var init := runs[..|runs| - 1];
      var last := runs[|runs| - 1];
      RunsWarningsMeanChange(init);
      if last.drawing.Some? {
        DrawingSanitizeFacts(last.drawing.value);
      }
      assert runs == init + [last];
      Seqs.SnocEquals(SanitizedRuns(init), SanitizedRun(last), init, last);
    }
  }

  lemma {:induction false} BodyWarningsAreConversions(ps: seq<Paragraph>)
    ensures forall w :: w in BodyWarnings(ps) ==> w == ComplexAnchorConverted(CONVERTED_REASON)
    decreases |ps|
  {
    if ps != [] {
      BodyWarningsAreConversions(ps[..|ps| - 1]);
      RunsWarningsMeanChange(ps[|ps| - 1].runs);
    }
  }

  lemma {:induction false} BodyWarningsMeanChange(ps: seq<Paragraph>)
    ensures BodyWarnings(ps) == [] <==> SanitizedParagraphs(ps) == ps
    decreases |ps|
  {
    if ps != [] {
      var init := ps[..|ps| - 1];
      var last := ps[|ps| - 1];
      BodyWarningsMeanChange(init);
      RunsWarningsMeanChange(last.runs);
      assert BodyWarnings(ps) == BodyWarnings(init) + RunsWarnings(last.runs);
      assert ps == init + [last];
      Seqs.SnocEquals(SanitizedParagraphs(init), Paragraph(SanitizedRuns(last.runs)), init, last);
    }
  }

  /** A second sanitize pass over the body changes nothing and reports nothing. */
  lemma SecondPassIsQuiet(ps: seq<Paragraph>)
    ensures SanitizedParagraphs(SanitizedParagraphs(ps)) == SanitizedParagraphs(ps)
    ensures BodyWarnings(SanitizedParagraphs(ps)) == []
  {
    var once := SanitizedParagraphs(ps);
    forall i | 0 <= i < |once|
      ensures SanitizedRuns(once[i].runs) == once[i].runs
    {
      forall k | 0 <= k < |once[i].runs|
        ensures SanitizedRun(once[i].runs[k]) == once[i].runs[k]
      {
        var run := ps[i].runs[k];
        if run.drawing.Some? {
          DrawingSanitizeFacts(run.drawing.value);
        }
      }
    }
    BodyWarningsMeanChange(once);
  }
}
