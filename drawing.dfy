/**
 * `w:drawing` of the crate (src/document/drawing.rs): the anchor/inline records, the compatibility sanitizer
 * that turns a floating `wp:anchor` into a plain `wp:inline`, and the hand-written `wp:anchor` encoder
 * (section 20.4 of ECMA-376 Part 1).
 */
module Drawing {
  import opened Wrappers
  import opened Errors
  import Seqs
  import Decimal
  import BooleanSerialization

  /** `isize` on a 64-bit target, and `u64`. */
  type ISize = x: int | -0x8000_0000_0000_0000 <= x < 0x8000_0000_0000_0000
  type U64 = x: int | 0 <= x < 0x1_0000_0000_0000_0000

  datatype SimplePos = SimplePos(x: Option<ISize>, y: Option<ISize>)

  datatype RelativeFromH =
    | HMargin | HPage | HColumn | HCharacter | HLeftMargin | HRightMargin | HInsideMargin | HOutsideMargin
  datatype RelativeFromV =
    | VMargin | VPage | VParagraph | VLine | VTopMargin | VBottomMargin | VInsideMargin | VOutsideMargin

  /** The crate's `wp:positionH`: an optional base and an optional offset, and no `align`. */
  datatype PositionHorizontal = PositionHorizontal(relativeFrom: Option<RelativeFromH>, posOffset: Option<ISize>)
  datatype PositionVertical = PositionVertical(relativeFrom: Option<RelativeFromV>, posOffset: Option<ISize>)

  datatype Extent = Extent(cx: U64, cy: U64)

  datatype WrapPoint = WrapPoint(x: Option<ISize>, y: Option<ISize>)
  datatype WrapPolygon = WrapPolygon(edited: Option<bool>, start: WrapPoint, lineTo: seq<WrapPoint>)
  /** `WrapTextType` has the single value `bothSides`. */
  datatype Wrap =
    | WrapNone
    | WrapSquare
    | WrapTight(polygon: WrapPolygon)
    | WrapThrough
    | WrapTopAndBottom

  datatype DocPr = DocPr(id: Option<ISize>, name: Option<string>, descr: Option<string>)

  /** A `pic:pic`; of its children only the embedded image reference is kept. */
  datatype Picture = Picture(a: string, blipEmbed: string)
  datatype GraphicData = GraphicData(uri: string, children: seq<Picture>)
  datatype Graphic = Graphic(a: string, data: GraphicData)

  datatype Anchor = Anchor(
    distT: Option<ISize>, distB: Option<ISize>, distL: Option<ISize>, distR: Option<ISize>,
    simplePosAttr: Option<ISize>, relativeHeight: Option<ISize>,
    behindDoc: Option<bool>, locked: Option<bool>, layoutInCell: Option<bool>, allowOverlap: Option<bool>,
    simplePos: Option<SimplePos>,
    positionHorizontal: Option<PositionHorizontal>, positionVertical: Option<PositionVertical>,
    extent: Option<Extent>, wrap: Option<Wrap>, docProperty: DocPr, graphic: Option<Graphic>)

  /** `wp:inline` carries the same fields as `wp:anchor` except the wrap. */
  datatype Inline = Inline(
    distT: Option<ISize>, distB: Option<ISize>, distL: Option<ISize>, distR: Option<ISize>,
    simplePosAttr: Option<ISize>, relativeHeight: Option<ISize>,
    behindDoc: Option<bool>, locked: Option<bool>, layoutInCell: Option<bool>, allowOverlap: Option<bool>,
    simplePos: Option<SimplePos>,
    positionHorizontal: Option<PositionHorizontal>, positionVertical: Option<PositionVertical>,
    extent: Option<Extent>, docProperty: DocPr, graphic: Option<Graphic>)

  /** A drawing holds an anchored and an inline picture slot, each optional. */
  datatype Drawing = Drawing(anchor: Option<Anchor>, inline: Option<Inline>)

  // ---------------------------------------------------------------- sanitizer

  /** The inline keeps the anchor's distances from text, its size, its description and its picture. */
  predicate KeepsContent(a: Anchor, i: Inline)
  {
    i.distT == a.distT && i.distB == a.distB && i.distL == a.distL && i.distR == a.distR
    && i.extent == a.extent && i.docProperty == a.docProperty && i.graphic == a.graphic
  }

  /** The inline carries no positioning, z-order or locking data. */
  predicate Unpositioned(i: Inline)
  {
    i.simplePosAttr.None? && i.relativeHeight.None? && i.behindDoc.None? && i.locked.None?
    && i.layoutInCell.None? && i.allowOverlap.None?
    && i.simplePos.None? && i.positionHorizontal.None? && i.positionVertical.None?
  }

  /** `Drawing::anchor_to_simple_inline`: never fails. */
  function AnchorToSimpleInline(anchor: Anchor): (r: DocxResult<Inline>)
    ensures r.Ok? && KeepsContent(anchor, r.value) && Unpositioned(r.value)
  {
    Ok(Inline(anchor.distT, anchor.distB, anchor.distL, anchor.distR,
              None, None, None, None, None, None,
              None, None, None,
              anchor.extent, anchor.docProperty, anchor.graphic))
  }

  /** The converted inline is the only inline that keeps the anchor's content and drops its positioning. */
  lemma SimpleInlineIsUnique(anchor: Anchor, i: Inline)
    requires KeepsContent(anchor, i) && Unpositioned(i)
    ensures i == AnchorToSimpleInline(anchor).value
  {
  }

  /** The drawing `sanitize_for_compatibility` leaves behind. */
  function Sanitized(d: Drawing): (r: Drawing)
    ensures r.anchor.None?
    ensures d.anchor.Some? ==> r.inline.Some? && KeepsContent(d.anchor.value, r.inline.value) && Unpositioned(r.inline.value)
    ensures d.anchor.None? ==> r == d
  {
    if d.anchor.Some? then Drawing(None, Some(AnchorToSimpleInline(d.anchor.value).value)) else d
  }

  /**
   * `Drawing::sanitize_for_compatibility`: takes the anchor out of its slot and, when there was one, puts its
   * simplified inline into the inline slot, overwriting any inline already there. Never fails.
   */
  method SanitizeForCompatibility(d: Drawing) returns (d': Drawing, r: DocxResult<()>)
    ensures r == Ok(()) && d' == Sanitized(d)
  {
    d' := d;
    var taken := d'.anchor;
    d' := d'.(anchor := None);
    if taken.Some? {
      var inline := AnchorToSimpleInline(taken.value);
      d' := d'.(inline := Some(inline.value));
    }
    r := Ok(());
  }

  /** A sanitized drawing is left alone by a second pass, and its inline is the converted anchor. */
  lemma SanitizeIdempotent(d: Drawing)
    ensures Sanitized(Sanitized(d)) == Sanitized(d)
    ensures d.anchor.Some? ==> Sanitized(d).inline == Some(AnchorToSimpleInline(d.anchor.value).value)
  {
  }

  // ---------------------------------------------------------------- encoder

  /** A child element of `wp:anchor`; its own encoding is derived and not part of this model. */
  datatype AnchorChild =
    | SimplePosChild(simplePos: SimplePos)
    | PositionHChild(positionH: PositionHorizontal)
    | PositionVChild(positionV: PositionVertical)
    | ExtentChild(extent: Extent)
    | WrapChild(wrap: Wrap)
    | DocPrChild(docPr: DocPr)
    | GraphicChild(graphic: Graphic)

  /** The calls an encoder makes on `hard_xml::XmlWriter`. */
  datatype XmlToken =
    | ElementStart(tag: string)
    | Attribute(name: string, value: string)
    | ElementEndOpen
    | ElementEndClose(tag: string)
    | Child(child: AnchorChild)

  /** The writer, as the stream of calls made on it. */
  class XmlWriter {
    var tokens: seq<XmlToken>

    constructor()
      ensures tokens == []
    {
      tokens := [];
    }

    method WriteElementStart(tag: string)
      modifies this
      ensures tokens == old(tokens) + [ElementStart(tag)]
    {
      tokens := tokens + [ElementStart(tag)];
    }

    method WriteAttribute(name: string, value: string)
      modifies this
      ensures tokens == old(tokens) + [Attribute(name, value)]
    {
      tokens := tokens + [Attribute(name, value)];
    }

    method WriteElementEndOpen()
      modifies this
      ensures tokens == old(tokens) + [ElementEndOpen]
    {
      tokens := tokens + [ElementEndOpen];
    }

    method WriteElementEndClose(tag: string)
      modifies this
      ensures tokens == old(tokens) + [ElementEndClose(tag)]
    {
      tokens := tokens + [ElementEndClose(tag)];
    }

    /** A child's own `to_writer`. */
    method WriteChild(c: AnchorChild)
      modifies this
      ensures tokens == old(tokens) + [Child(c)]
    {
      tokens := tokens + [Child(c)];
    }
  }

  /** The position of an attribute of `wp:anchor` in the schema's attribute order. */
  type AttrRank = r: nat | r < 10

  /** The schema's attribute order. */
  function AttrName(r: AttrRank): string
  {
    match r
    case 0 => "distT"
    case 1 => "distB"
    case 2 => "distL"
    case 3 => "distR"
    case 4 => "simplePos"
    case 5 => "relativeHeight"
    case 6 => "behindDoc"
    case 7 => "locked"
    case 8 => "layoutInCell"
    case _ => "allowOverlap"
  }

  /** The rank of an attribute name, and -1 for a name `wp:anchor` does not have. */
  function RankOf(name: string): int
  {
    if name == "distT" then 0 else if name == "distB" then 1 else if name == "distL" then 2
    else if name == "distR" then 3 else if name == "simplePos" then 4 else if name == "relativeHeight" then 5
    else if name == "behindDoc" then 6 else if name == "locked" then 7 else if name == "layoutInCell" then 8
    else if name == "allowOverlap" then 9 else -1
  }

  predicate IsBooleanAttribute(name: string)
  {
    RankOf(name) >= 6
  }

  lemma RankOfName(r: AttrRank)
    ensures RankOf(AttrName(r)) == r
  {
  }

  function IntValue(x: Option<ISize>): Option<string>
  {
    if x.Some? then Some(Decimal.IntToDecimal(x.value)) else None
  }

  function BoolValue(b: Option<bool>): Option<string>
  {
    if b.Some? then Some(BooleanSerialization.SerializeBoolOoxml(b.value)) else None
  }

  /** The value the anchor gives the attribute of rank `r`, if it has one. */
  function AttrValue(a: Anchor, r: AttrRank): Option<string>
  {
    match r
    case 0 => IntValue(a.distT)
    case 1 => IntValue(a.distB)
    case 2 => IntValue(a.distL)
    case 3 => IntValue(a.distR)
    case 4 => IntValue(a.simplePosAttr)
    case 5 => IntValue(a.relativeHeight)
    case 6 => BoolValue(a.behindDoc)
    case 7 => BoolValue(a.locked)
    case 8 => BoolValue(a.layoutInCell)
    case _ => BoolValue(a.allowOverlap)
  }

  /** `out` followed by the tokens for the attributes of rank below `r` that the anchor has, in rank order. */
  function AppendAttributes(out: seq<XmlToken>, a: Anchor, r: nat): seq<XmlToken>
    requires r <= 10
  {
    if r == 0 then out
    else AppendAttributes(out, a, r - 1)
         + (if AttrValue(a, r - 1).Some? then [Attribute(AttrName(r - 1), AttrValue(a, r - 1).value)] else [])
  }

  function AttributesUpTo(a: Anchor, r: nat): seq<XmlToken>
    requires r <= 10
  {
    AppendAttributes([], a, r)
  }

  lemma {:induction false} AppendAttributesAfter(out: seq<XmlToken>, a: Anchor, r: nat)
    requires r <= 10
    ensures AppendAttributes(out, a, r) == out + AttributesUpTo(a, r)
  {
    if r > 0 {
      AppendAttributesAfter(out, a, r - 1);
    }
  }

  function AnchorAttributes(a: Anchor): seq<XmlToken>
  {
    AttributesUpTo(a, 10)
  }

  /** The position of a child element of `wp:anchor` in the schema's child order. */
  type ChildRank = r: nat | r < 7

  /** The child of rank `r` the anchor has, if any: simplePos, positionH, positionV, extent, wrap, docPr, graphic. */
  function ChildAt(a: Anchor, r: ChildRank): Option<AnchorChild>
  {
    match r
    case 0 => if a.simplePos.Some? then Some(SimplePosChild(a.simplePos.value)) else None
    case 1 => if a.positionHorizontal.Some? then Some(PositionHChild(a.positionHorizontal.value)) else None
    case 2 => if a.positionVertical.Some? then Some(PositionVChild(a.positionVertical.value)) else None
    case 3 => if a.extent.Some? then Some(ExtentChild(a.extent.value)) else None
    case 4 => if a.wrap.Some? then Some(WrapChild(a.wrap.value)) else None
    case 5 => Some(DocPrChild(a.docProperty))
    case _ => if a.graphic.Some? then Some(GraphicChild(a.graphic.value)) else None
  }

  function ChildRankOf(c: AnchorChild): ChildRank
  {
    match c
    case SimplePosChild(_) => 0
    case PositionHChild(_) => 1
    case PositionVChild(_) => 2
    case ExtentChild(_) => 3
    case WrapChild(_) => 4
    case DocPrChild(_) => 5
    case GraphicChild(_) => 6
  }

  /** `out` followed by the tokens for the children of rank below `r` that the anchor has, in rank order. */
  function AppendChildren(out: seq<XmlToken>, a: Anchor, r: nat): seq<XmlToken>
    requires r <= 7
  {
    if r == 0 then out
    else AppendChildren(out, a, r - 1) + (if ChildAt(a, r - 1).Some? then [Child(ChildAt(a, r - 1).value)] else [])
  }

  function ChildrenUpTo(a: Anchor, r: nat): seq<XmlToken>
    requires r <= 7
  {
    AppendChildren([], a, r)
  }

  lemma {:induction false} AppendChildrenAfter(out: seq<XmlToken>, a: Anchor, r: nat)
    requires r <= 7
    ensures AppendChildren(out, a, r) == out + ChildrenUpTo(a, r)
  {
    if r > 0 {
      AppendChildrenAfter(out, a, r - 1);
    }
  }

  function AnchorChildren(a: Anchor): seq<XmlToken>
  {
    ChildrenUpTo(a, 7)
  }

  function AnchorTokens(a: Anchor): seq<XmlToken>
  {
    [ElementStart("wp:anchor")] + AnchorAttributes(a) + [ElementEndOpen] + AnchorChildren(a) + [ElementEndClose("wp:anchor")]
  }

  /** `if let Some(v) = value { writer.write_attribute(name, v)? }` */
  method WriteOptionalAttribute(name: string, value: Option<string>, w: XmlWriter)
    modifies w
    ensures w.tokens == old(w.tokens) + (if value.Some? then [Attribute(name, value.value)] else [])
  {
    if value.Some? {
      w.WriteAttribute(name, value.value);
    }
  }

  /** `if let Some(c) = &child { c.to_writer(writer)? }` */
  method WriteOptionalChild(child: Option<AnchorChild>, w: XmlWriter)
    modifies w
    ensures w.tokens == old(w.tokens) + (if child.Some? then [Child(child.value)] else [])
  {
    if child.Some? {
      w.WriteChild(child.value);
    }
  }

  /**
   * `Anchor::to_writer`: the start tag, the attributes the anchor has in schema order, the end of the start
   * tag, the children the anchor has in schema order, and the end tag.
   */
  method AnchorToWriter(a: Anchor, w: XmlWriter)
    modifies w
    ensures w.tokens == old(w.tokens) + AnchorTokens(a)
  {
    w.WriteElementStart("wp:anchor");
    WriteAttributes(a, w);
    w.WriteElementEndOpen();
    WriteChildren(a, w);
    w.WriteElementEndClose("wp:anchor");
  }

  /** The attributes of `Anchor::to_writer`: integers as decimal text, booleans as `1` or `0`. */
  method WriteAttributes(a: Anchor, w: XmlWriter)
    modifies w
    ensures w.tokens == old(w.tokens) + AnchorAttributes(a)
  {
    ghost var start := w.tokens;
    WriteNumericAttributes(a, w);
    WriteBooleanAttributes(a, w, start);
    AppendAttributesAfter(start, a, 10);
  }

  /** The numeric attributes of `Anchor::to_writer`, written as decimal text. */
  method WriteNumericAttributes(a: Anchor, w: XmlWriter)
    modifies w
    ensures w.tokens == AppendAttributes(old(w.tokens), a, 6)
  {
    ghost var start := w.tokens;
    WriteOptionalAttribute("distT", if a.distT.Some? then Some(Decimal.IntToDecimal(a.distT.value)) else None, w);
    assert w.tokens == AppendAttributes(start, a, 1);
    WriteOptionalAttribute("distB", if a.distB.Some? then Some(Decimal.IntToDecimal(a.distB.value)) else None, w);
    assert w.tokens == AppendAttributes(start, a, 2);
    WriteOptionalAttribute("distL", if a.distL.Some? then Some(Decimal.IntToDecimal(a.distL.value)) else None, w);
    assert w.tokens == AppendAttributes(start, a, 3);
    WriteOptionalAttribute("distR", if a.distR.Some? then Some(Decimal.IntToDecimal(a.distR.value)) else None, w);
    assert w.tokens == AppendAttributes(start, a, 4);
    WriteOptionalAttribute("simplePos",
      if a.simplePosAttr.Some? then Some(Decimal.IntToDecimal(a.simplePosAttr.value)) else None, w);
    assert w.tokens == AppendAttributes(start, a, 5);
    WriteOptionalAttribute("relativeHeight",
      if a.relativeHeight.Some? then Some(Decimal.IntToDecimal(a.relativeHeight.value)) else None, w);
  }

  /** The boolean attributes of `Anchor::to_writer`, written `1` or `0`. */
  method WriteBooleanAttributes(a: Anchor, w: XmlWriter, ghost start: seq<XmlToken>)
    requires w.tokens == AppendAttributes(start, a, 6)
    modifies w
    ensures w.tokens == AppendAttributes(start, a, 10)
  {
    WriteOptionalAttribute("behindDoc", if a.behindDoc.Some? then Some(if a.behindDoc.value then "1" else "0") else None, w);
    assert w.tokens == AppendAttributes(start, a, 7);
    WriteOptionalAttribute("locked", if a.locked.Some? then Some(if a.locked.value then "1" else "0") else None, w);
    assert w.tokens == AppendAttributes(start, a, 8);
    WriteOptionalAttribute("layoutInCell",
      if a.layoutInCell.Some? then Some(if a.layoutInCell.value then "1" else "0") else None, w);
    assert w.tokens == AppendAttributes(start, a, 9);
    WriteOptionalAttribute("allowOverlap",
      if a.allowOverlap.Some? then Some(if a.allowOverlap.value then "1" else "0") else None, w);
  }

  /** The child elements of `Anchor::to_writer`, each through its own encoder; `docPr` unconditionally. */
  method WriteChildren(a: Anchor, w: XmlWriter)
    modifies w
    ensures w.tokens == old(w.tokens) + AnchorChildren(a)
  {
    ghost var start := w.tokens;
    WriteOptionalChild(if a.simplePos.Some? then Some(SimplePosChild(a.simplePos.value)) else None, w);
    assert w.tokens == AppendChildren(start, a, 1);
    WriteOptionalChild(if a.positionHorizontal.Some? then Some(PositionHChild(a.positionHorizontal.value)) else None, w);
    assert w.tokens == AppendChildren(start, a, 2);
    WriteOptionalChild(if a.positionVertical.Some? then Some(PositionVChild(a.positionVertical.value)) else None, w);
    assert w.tokens == AppendChildren(start, a, 3);
    WriteOptionalChild(if a.extent.Some? then Some(ExtentChild(a.extent.value)) else None, w);
    assert w.tokens == AppendChildren(start, a, 4);
    WriteOptionalChild(if a.wrap.Some? then Some(WrapChild(a.wrap.value)) else None, w);
    assert w.tokens == AppendChildren(start, a, 5);
    w.WriteChild(DocPrChild(a.docProperty));
    assert w.tokens == AppendChildren(start, a, 6);
    WriteOptionalChild(if a.graphic.Some? then Some(GraphicChild(a.graphic.value)) else None, w);
    AppendChildrenAfter(start, a, 7);
  }

  /** The attributes come out in strictly increasing schema rank, so each at most once. */
  lemma {:induction false} AttributesInSchemaOrder(a: Anchor, r: nat)
    requires r <= 10
    ensures forall t :: t in AttributesUpTo(a, r) ==> t.Attribute? && 0 <= RankOf(t.name) < r
    ensures forall i, j :: 0 <= i < j < |AttributesUpTo(a, r)| ==>
              RankOf(AttributesUpTo(a, r)[i].name) < RankOf(AttributesUpTo(a, r)[j].name)
  {
    if r > 0 {
      AttributesInSchemaOrder(a, r - 1);
      RankOfName(r - 1);
    }
  }

  /**
   * An attribute is written exactly when the anchor has it, with the anchor's value: integers as decimal
   * text that reads back as the field, booleans as `1` or `0`.
   */
  lemma {:induction false} AttributeWritten(a: Anchor, r: nat, k: AttrRank, v: string)
    requires r <= 10
    ensures Attribute(AttrName(k), v) in AttributesUpTo(a, r) <==> k < r && AttrValue(a, k) == Some(v)
  {
    if r > 0 {
      AttributeWritten(a, r - 1, k, v);
      AttributesInSchemaOrder(a, r - 1);
      RankOfName(k);
      RankOfName(r - 1);
    }
  }

  /** Every attribute value reads back: integers parse to the field, booleans are `1` or `0`, never words. */
  lemma AttributeValueReadsBack(a: Anchor, k: AttrRank)
    requires AttrValue(a, k).Some?
    ensures k < 6 ==> Decimal.ParseInt(AttrValue(a, k).value) == Some(
              [a.distT, a.distB, a.distL, a.distR, a.simplePosAttr, a.relativeHeight][k].value as int)
    ensures k >= 6 ==>
              BooleanSerialization.ParseBoolOoxml(AttrValue(a, k).value) == [a.behindDoc, a.locked, a.layoutInCell, a.allowOverlap][k - 6]
    ensures k >= 6 ==> AttrValue(a, k).value == "0" || AttrValue(a, k).value == "1"
    ensures AttrValue(a, k).value != "true" && AttrValue(a, k).value != "false"
  {
    if k < 6 {
      var x := [a.distT, a.distB, a.distL, a.distR, a.simplePosAttr, a.relativeHeight][k];
      Decimal.IntRoundTrip(x.value);
      Decimal.NoLetters(x.value, 't');
      Decimal.NoLetters(x.value, 'f');
    } else {
      BooleanSerialization.BoolRoundTrip([a.behindDoc, a.locked, a.layoutInCell, a.allowOverlap][k - 6].value);
    }
  }

  /** The children come out in strictly increasing schema rank. */
  lemma {:induction false} ChildrenInSchemaOrder(a: Anchor, r: nat)
    requires r <= 7
    ensures forall t :: t in ChildrenUpTo(a, r) ==> t.Child? && ChildRankOf(t.child) < r
    ensures forall i, j :: 0 <= i < j < |ChildrenUpTo(a, r)| ==>
              ChildRankOf(ChildrenUpTo(a, r)[i].child) < ChildRankOf(ChildrenUpTo(a, r)[j].child)
  {
    if r > 0 {
      ChildrenInSchemaOrder(a, r - 1);
    }
  }

  /** A child is written exactly when the anchor has it; in particular `docPr` is always written. */
  lemma {:induction false} ChildWritten(a: Anchor, r: nat, c: AnchorChild)
    requires r <= 7
    ensures Child(c) in ChildrenUpTo(a, r) <==> ChildRankOf(c) < r && ChildAt(a, ChildRankOf(c)) == Some(c)
  {
    if r > 0 {
      ChildWritten(a, r - 1, c);
      ChildrenInSchemaOrder(a, r - 1);
    }
  }

  lemma DocPrAlwaysWritten(a: Anchor)
    ensures Child(DocPrChild(a.docProperty)) in AnchorChildren(a)
  {
    ChildWritten(a, 7, DocPrChild(a.docProperty));
  }
}
