/**
 * The "required elements" template for `wp:anchor` (section 20.4 of ECMA-376 Part 1): positions that must carry
 * exactly one of `wp:align` and `wp:posOffset`, safe defaults, and the string encoder that validates first.
 */
module RequiredElements {
  import opened Wrappers
  import opened Strings
  import Decimal
  import Seqs
  import BooleanSerialization

  type U32 = x: int | 0 <= x < 0x1_0000_0000
  type I32 = x: int | -0x8000_0000 <= x < 0x8000_0000

  datatype DrawingMLError =
    | MissingRequiredElement(message: string)
    | InvalidPositioning(message: string)
    | IncompleteStructure(message: string)

  datatype PositionH = PositionH(relativeFrom: string, align: Option<string>, posOffset: Option<I32>)
  datatype PositionV = PositionV(relativeFrom: string, align: Option<string>, posOffset: Option<I32>)

  datatype EffectExtent = EffectExtent(l: I32, t: I32, r: I32, b: I32)
  datatype GraphicFrameLocks = GraphicFrameLocks(noChangeAspect: bool)
  datatype CnvGraphicFramePr = CnvGraphicFramePr(graphicFrameLocks: GraphicFrameLocks)
  datatype SizeRelH = SizeRelH(relativeFrom: string, pctWidth: U32)
  datatype SizeRelV = SizeRelV(relativeFrom: string, pctHeight: U32)
  datatype Extent = Extent(cx: U32, cy: U32)
  datatype DocPr = DocPr(id: U32, name: string)
  /** The template leaves the graphic's structure and encoder to the host crate; it is kept as its encoded text. */
  datatype Graphic = Graphic(xml: string)

  datatype WpAnchor = WpAnchor(
    distT: U32, distB: U32, distL: U32, distR: U32,
    simplePos: bool, relativeHeight: U32, behindDoc: bool, locked: bool, layoutInCell: bool, allowOverlap: bool,
    positionH: PositionH, positionV: PositionV,
    effectExtent: EffectExtent, graphicFramePr: CnvGraphicFramePr,
    sizeRelH: SizeRelH, sizeRelV: SizeRelV,
    extent: Extent, docPr: DocPr, graphic: Graphic)

  const POSITION_H_MISSING := "positionH requires either align or posOffset - THIS IS THE MAIN CORRUPTION CAUSE"
  const POSITION_H_BOTH := "positionH cannot have both align and posOffset"
  const POSITION_V_MISSING := "positionV requires either align or posOffset"
  const POSITION_V_BOTH := "positionV cannot have both align and posOffset"

  /** `PositionH::validate`: exactly one of `align` and `posOffset`. */
  function ValidatePositionH(p: PositionH): (r: Result<(), DrawingMLError>)
    ensures r.Ok? <==> (p.align.Some? != p.posOffset.Some?)
    ensures p.align.None? && p.posOffset.None? ==> r == Err(MissingRequiredElement(POSITION_H_MISSING))
    ensures p.align.Some? && p.posOffset.Some? ==> r == Err(InvalidPositioning(POSITION_H_BOTH))
  {
    match (p.align, p.posOffset)
    case (None, None) => Err(MissingRequiredElement(POSITION_H_MISSING))
    case (Some(_), Some(_)) => Err(InvalidPositioning(POSITION_H_BOTH))
    case _ => Ok(())
  }

  /** `PositionV::validate`: the same exactly-one rule. */
  function ValidatePositionV(p: PositionV): (r: Result<(), DrawingMLError>)
    ensures r.Ok? <==> (p.align.Some? != p.posOffset.Some?)
    ensures p.align.None? && p.posOffset.None? ==> r == Err(MissingRequiredElement(POSITION_V_MISSING))
    ensures p.align.Some? && p.posOffset.Some? ==> r == Err(InvalidPositioning(POSITION_V_BOTH))
  {
    match (p.align, p.posOffset)
    case (None, None) => Err(MissingRequiredElement(POSITION_V_MISSING))
    case (Some(_), Some(_)) => Err(InvalidPositioning(POSITION_V_BOTH))
    case _ => Ok(())
  }

  /** `PositionH::safe_default`. */
  function SafeDefaultPositionH(): (p: PositionH)
    ensures ValidatePositionH(p).Ok? && p.align == Some("center") && p.relativeFrom == "column"
  {
    PositionH("column", Some("center"), None)
  }

  /** `PositionV::safe_default`. */
  function SafeDefaultPositionV(): (p: PositionV)
    ensures ValidatePositionV(p).Ok? && p.posOffset == Some(0) && p.relativeFrom == "paragraph"
  {
    PositionV("paragraph", None, Some(0))
  }

  /** `WpAnchor::validate`: the horizontal position first, then the vertical one. */
  function ValidateAnchor(a: WpAnchor): (r: Result<(), DrawingMLError>)
    ensures r.Ok? <==> ValidatePositionH(a.positionH).Ok? && ValidatePositionV(a.positionV).Ok?
    ensures ValidatePositionH(a.positionH).Err? ==> r == ValidatePositionH(a.positionH)
    ensures ValidatePositionH(a.positionH).Ok? ==> r == ValidatePositionV(a.positionV)
  {
    var _ :- ValidatePositionH(a.positionH);
    var _ :- ValidatePositionV(a.positionV);
    Ok(())
  }

  /** `WpAnchor::safe_default`: a valid anchor around the given extent, docPr and graphic. */
  function SafeDefaultAnchor(extent: Extent, docPr: DocPr, graphic: Graphic): (a: WpAnchor)
    ensures ValidateAnchor(a).Ok?
    ensures a.extent == extent && a.docPr == docPr && a.graphic == graphic
    ensures a.distT == 0 && a.distB == 0 && a.distL == 114300 && a.distR == 114300
    ensures !a.simplePos && a.relativeHeight == 251659264 && !a.behindDoc && !a.locked && a.layoutInCell && a.allowOverlap
    ensures a.effectExtent == EffectExtent(0, 0, 0, 0) && a.graphicFramePr.graphicFrameLocks.noChangeAspect
    ensures a.sizeRelH == SizeRelH("margin", 0) && a.sizeRelV == SizeRelV("margin", 0)
  {
    WpAnchor(0, 0, 114300, 114300,
             false, 251659264, false, false, true, true,
             SafeDefaultPositionH(), SafeDefaultPositionV(),
             EffectExtent(0, 0, 0, 0), CnvGraphicFramePr(GraphicFrameLocks(true)),
             SizeRelH("margin", 0), SizeRelV("margin", 0),
             extent, docPr, graphic)
  }

  /** The positioning child a position element carries. */
  datatype PositionChoice = AlignChoice(align: string) | OffsetChoice(offset: int)

  function ChoiceXml(c: PositionChoice): string
  {
    match c
    case AlignChoice(a) => "<wp:align>" + a + "</wp:align>"
    case OffsetChoice(n) => "<wp:posOffset>" + Decimal.IntToDecimal(n) + "</wp:posOffset>"
  }

  /** `PositionH::to_xml`: `align` wins over `posOffset`; with neither, the emergency fallback centres. */
  function PositionHXml(p: PositionH): string
  {
    var content :=
      if p.align.Some? then ChoiceXml(AlignChoice(p.align.value))
      else if p.posOffset.Some? then ChoiceXml(OffsetChoice(p.posOffset.value))
      else "<wp:align>center</wp:align>";
    "<wp:positionH relativeFrom=\"" + p.relativeFrom + "\">" + content + "</wp:positionH>"
  }

  /** `PositionV::to_xml`: `align` wins over `posOffset`; with neither, the emergency fallback is offset 0. */
  function PositionVXml(p: PositionV): string
  {
    var content :=
      if p.align.Some? then ChoiceXml(AlignChoice(p.align.value))
      else if p.posOffset.Some? then ChoiceXml(OffsetChoice(p.posOffset.value))
      else "<wp:posOffset>0</wp:posOffset>";
    "<wp:positionV relativeFrom=\"" + p.relativeFrom + "\">" + content + "</wp:positionV>"
  }

  /** The position the emitted `wp:positionH` element actually describes. */
  function EncodedPositionH(p: PositionH): PositionH
  {
    if p.align.Some? then p.(posOffset := None)
    else if p.posOffset.Some? then p
    else p.(align := SafeDefaultPositionH().align)
  }

  /** The position the emitted `wp:positionV` element actually describes. */
  function EncodedPositionV(p: PositionV): PositionV
  {
    if p.align.Some? then p.(posOffset := None)
    else if p.posOffset.Some? then p
    else p.(posOffset := SafeDefaultPositionV().posOffset)
  }

  /**
   * The encoder always writes a valid position: its output is the encoding of a position that validates,
   * that position is the input itself whenever the input validates, and a position with neither child
   * is written exactly as if it held the safe default's choice.
   */
  lemma PositionHXmlIsValid(p: PositionH)
    ensures ValidatePositionH(EncodedPositionH(p)).Ok?
    ensures PositionHXml(EncodedPositionH(p)) == PositionHXml(p)
    ensures ValidatePositionH(p).Ok? ==> EncodedPositionH(p) == p
    ensures p.align.None? && p.posOffset.None? ==>
              PositionHXml(p) == PositionHXml(SafeDefaultPositionH().(relativeFrom := p.relativeFrom))
  {
    assert ChoiceXml(AlignChoice("center")) == "<wp:align>center</wp:align>";
  }

  lemma PositionVXmlIsValid(p: PositionV)
    ensures ValidatePositionV(EncodedPositionV(p)).Ok?
    ensures PositionVXml(EncodedPositionV(p)) == PositionVXml(p)
    ensures ValidatePositionV(p).Ok? ==> EncodedPositionV(p) == p
    ensures p.align.None? && p.posOffset.None? ==>
              PositionVXml(p) == PositionVXml(SafeDefaultPositionV().(relativeFrom := p.relativeFrom))
  {
    assert Decimal.IntToDecimal(0) == "0";
    assert ChoiceXml(OffsetChoice(0)) == "<wp:posOffset>0</wp:posOffset>";
  }

  function N(x: nat): string { Decimal.NatToDecimal(x) }
  function I(x: int): string { Decimal.IntToDecimal(x) }
  function B(b: bool): string { BooleanSerialization.SerializeBoolOoxml(b) }
  function Attr(name: string, value: string): string { BooleanSerialization.AttrText(name, value) }

  /**
   * The anchor's opening tag, shared word for word by `WpAnchor::to_xml` of both templates: every attribute
   * `name="{}"` in a fixed order, with the template's line breaks and indentation.
   */
  function StartTagPieces(a: WpAnchor): seq<string>
  {
    [OPEN_ANCHOR, Attr("distT", N(a.distT)), SPACE, Attr("distB", N(a.distB)), SPACE, Attr("distL", N(a.distL)), SPACE,
     Attr("distR", N(a.distR)), LINE_BREAK, Attr("simplePos", B(a.simplePos)), SPACE,
     Attr("relativeHeight", N(a.relativeHeight)), LINE_BREAK, Attr("behindDoc", B(a.behindDoc)), SPACE,
     Attr("locked", B(a.locked)), SPACE, Attr("layoutInCell", B(a.layoutInCell)), SPACE,
     Attr("allowOverlap", B(a.allowOverlap)), CLOSE_TAG]
  }

  const OPEN_ANCHOR := "<wp:anchor "
  const SPACE := " "
  /** The template's line break between attribute groups, with its indentation. */
  const LINE_BREAK := " \n               "
  const CLOSE_TAG := ">"

  lemma SeparatorsWordFree()
    ensures WordFree(OPEN_ANCHOR) && WordFree(SPACE) && WordFree(LINE_BREAK) && WordFree(CLOSE_TAG)
  {
  }

  /** The template right after the opening tag: the simple position and both positioning children. */
  function PositionPieces(a: WpAnchor): seq<string>
  {
    ["\n  <wp:simplePos x=\"0\" y=\"0\"/>\n  ", PositionHXml(a.positionH), "\n  ", PositionVXml(a.positionV)]
  }

  /** The rest of the `WpAnchor::to_xml` template, piece by piece. */
  function TailPieces(a: WpAnchor): seq<string>
  {
    ["\n  <wp:extent cx=\"", N(a.extent.cx), "\" cy=\"", N(a.extent.cy),
     "\"/>\n  <wp:effectExtent l=\"", I(a.effectExtent.l), "\" t=\"", I(a.effectExtent.t),
     "\" r=\"", I(a.effectExtent.r), "\" b=\"", I(a.effectExtent.b),
     "\"/>\n  <wp:wrapTopAndBottom/>\n  <wp:docPr id=\"", N(a.docPr.id), "\" name=\"", a.docPr.name,
     "\"/>\n  <wp:cNvGraphicFramePr>\n    <a:graphicFrameLocks noChangeAspect=\"",
     B(a.graphicFramePr.graphicFrameLocks.noChangeAspect), "\"/>\n  </wp:cNvGraphicFramePr>\n  ", a.graphic.xml,
     "\n  <wp:sizeRelH relativeFrom=\"", a.sizeRelH.relativeFrom, "\">\n    <wp:pctWidth>", N(a.sizeRelH.pctWidth),
     "</wp:pctWidth>\n  </wp:sizeRelH>\n  <wp:sizeRelV relativeFrom=\"", a.sizeRelV.relativeFrom,
     "\">\n    <wp:pctHeight>", N(a.sizeRelV.pctHeight), "</wp:pctHeight>\n  </wp:sizeRelV>\n</wp:anchor>"]
  }

  /** The opening tag (the anchor header of the boolean-serialization template). */
  function AnchorStartTag(a: WpAnchor): string
  {
    Seqs.Concat(StartTagPieces(a))
  }

  /**
   * The header writes each boolean attribute exactly as `serialize_bool_attr!` does, `name="0"` or `name="1"`,
   * and holds neither the word `true` nor the word `false`.
   */
  lemma StartTagBooleans(a: WpAnchor)
    ensures Contains(AnchorStartTag(a), BooleanSerialization.SerializeBoolAttr("simplePos", a.simplePos))
    ensures Contains(AnchorStartTag(a), BooleanSerialization.SerializeBoolAttr("behindDoc", a.behindDoc))
    ensures Contains(AnchorStartTag(a), BooleanSerialization.SerializeBoolAttr("locked", a.locked))
    ensures Contains(AnchorStartTag(a), BooleanSerialization.SerializeBoolAttr("layoutInCell", a.layoutInCell))
    ensures Contains(AnchorStartTag(a), BooleanSerialization.SerializeBoolAttr("allowOverlap", a.allowOverlap))
  {
    var ps := StartTagPieces(a);
    ContainsPiece(ps, 9);
    ContainsPiece(ps, 13);
    ContainsPiece(ps, 15);
    ContainsPiece(ps, 17);
    ContainsPiece(ps, 19);
  }

  /** A header piece in which neither `true` nor `false` can occur or begin to occur. */
  predicate WordFree(p: string)
  {
    ('r' !in p || 'u' !in p) && 'f' !in p && (p == [] || p[|p| - 1] !in "truefals")
  }

  lemma AttrWordFree(name: string, value: string)
    requires forall i :: 0 <= i < |value| ==> Decimal.IsDigit(value[i])
    requires ('r' !in name || 'u' !in name) && 'f' !in name
    ensures WordFree(Attr(name, value))
  {
    var s := Attr(name, value);
    assert s == name + "=\"" + value + "\"";
    assert forall c :: c in s ==> c in name || c == '=' || c == '"' || c in value;
  }

  lemma WordFreePieces(ps: seq<string>)
    requires forall p :: p in ps ==> WordFree(p)
    ensures !Contains(Seqs.Concat(ps), "true") && !Contains(Seqs.Concat(ps), "false")
  {
    assert "true"[1] == 'r' && "true"[2] == 'u' && "false"[0] == 'f';
    WordAbsentFromPieces(ps, "true", 1, 2);
    WordAbsentFromPieces(ps, "false", 0, 0);
  }

  lemma DistancesWordFree(a: WpAnchor)
    ensures WordFree(Attr("distT", N(a.distT))) && WordFree(Attr("distB", N(a.distB)))
    ensures WordFree(Attr("distL", N(a.distL))) && WordFree(Attr("distR", N(a.distR)))
  {
    AttrWordFree("distT", N(a.distT));
    AttrWordFree("distB", N(a.distB));
    AttrWordFree("distL", N(a.distL));
    AttrWordFree("distR", N(a.distR));
  }

  lemma FlagsWordFreeFirst(a: WpAnchor)
    ensures WordFree(Attr("simplePos", B(a.simplePos))) && WordFree(Attr("relativeHeight", N(a.relativeHeight)))
    ensures WordFree(Attr("behindDoc", B(a.behindDoc)))
  {
    AttrWordFree("simplePos", B(a.simplePos));
    AttrWordFree("relativeHeight", N(a.relativeHeight));
    AttrWordFree("behindDoc", B(a.behindDoc));
  }

  lemma FlagsWordFreeSecond(a: WpAnchor)
    ensures WordFree(Attr("locked", B(a.locked)))
    ensures WordFree(Attr("layoutInCell", B(a.layoutInCell))) && WordFree(Attr("allowOverlap", B(a.allowOverlap)))
  {
    AttrWordFree("locked", B(a.locked));
    AttrWordFree("layoutInCell", B(a.layoutInCell));
    AttrWordFree("allowOverlap", B(a.allowOverlap));
  }

  /** The anchor header holds neither the word `true` nor the word `false`. */
  lemma StartTagHasNoWords(a: WpAnchor)
    ensures !Contains(AnchorStartTag(a), "true")
    ensures !Contains(AnchorStartTag(a), "false")
  {
    DistancesWordFree(a);
    FlagsWordFreeFirst(a);
    FlagsWordFreeSecond(a);
    SeparatorsWordFree();
    assert forall p :: p in StartTagPieces(a) ==> WordFree(p);
    WordFreePieces(StartTagPieces(a));
  }

  /** `WpAnchor::to_xml`: fails with the validation error whenever `validate` fails, and otherwise writes the template. */
  function AnchorToXml(a: WpAnchor): (r: Result<string, DrawingMLError>)
    ensures r.Err? <==> ValidateAnchor(a).Err?
    ensures r.Err? ==> r.error == ValidateAnchor(a).error
  {
    var _ :- ValidateAnchor(a);
    Ok(AnchorStartTag(a) + Seqs.Concat(PositionPieces(a)) + Seqs.Concat(TailPieces(a)))
  }

  /**
   * A successful encoding starts with the boolean-safe header and carries both positioning children
   * exactly as the position encoders write them.
   */
  lemma AnchorXmlContents(a: WpAnchor)
    requires ValidateAnchor(a).Ok?
    ensures AnchorStartTag(a) <= AnchorToXml(a).value
    ensures Contains(AnchorToXml(a).value, PositionHXml(a.positionH))
    ensures Contains(AnchorToXml(a).value, PositionVXml(a.positionV))
  {
    var pp := PositionPieces(a);
    var head, middle, tail := AnchorStartTag(a), Seqs.Concat(pp), Seqs.Concat(TailPieces(a));
    assert AnchorToXml(a).value == head + middle + tail;
    ContainsPiece(pp, 1);
    ContainsPiece(pp, 3);
    ContainsExtendLeft(head, middle, pp[1]);
    ContainsExtendLeft(head, middle, pp[3]);
    ContainsExtendRight(head + middle, tail, pp[1]);
    ContainsExtendRight(head + middle, tail, pp[3]);
  }
}
