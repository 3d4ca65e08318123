/**
 * The WordprocessingML package (src/docx.rs): the `Docx` struct, the drawing sanitizer a compatible save runs
 * first, and the bookkeeping `write` does before it streams the parts out: the relationships it registers and
 * the zip entries it writes, in order. The parts' own XML encoders and the zip writer are not part of this
 * model; `write` is modelled by the names of the entries it starts.
 */
module Package {
  import opened Wrappers
  import opened Errors
  import Seqs
  import DocumentTree

  /**
   * The relationship types the crate's schema constants name (section 15 of ECMA-376 Part 1 gives their URIs);
   * `OtherType` stands for any other type string. The URI strings themselves are not part of this model, so the
   * relationship parser parameter is what keeps a schema URI from arriving as `OtherType`.
   */
  datatype RelType =
    | CoreProperties | ExtendedProperties | OfficeDocument
    | Styles | FontTable | Footnotes | Endnotes | Settings | WebSettings | Comments | Numbering
    | Header | Footer | Theme | Image | Hyperlink
    | OtherType(uri: string)

  /** One relationship; the id `add_rel` gives it is not modelled. */
  datatype Relationship = Relationship(ty: RelType, target: string)

  /** A part whose XML this model does not look into. */
  datatype Part = Part(xml: string)

  /** A media type the crate recognises from a file name. */
  datatype MediaType = MediaType(name: string)

  type Bytes = seq<bv8>

  /** A header or footer: block content, like the body. */
  type BlockPart = seq<DocumentTree.BodyContent>

  // ---------------------------------------------------------------- the optional parts of the main document

  /** The optional parts `write` registers and writes one by one, in this fixed order. */
  datatype OptionalPart = FontTablePart | FootnotesPart | EndnotesPart | SettingsPart | WebSettingsPart | CommentsPart | NumberingPart

  const OPTIONAL_PARTS: seq<OptionalPart> :=
    [FontTablePart, FootnotesPart, EndnotesPart, SettingsPart, WebSettingsPart, CommentsPart, NumberingPart]

  function PartRelType(p: OptionalPart): RelType
  {
    match p
    case FontTablePart => FontTable
    case FootnotesPart => Footnotes
    case EndnotesPart => Endnotes
    case SettingsPart => Settings
    case WebSettingsPart => WebSettings
    case CommentsPart => Comments
    case NumberingPart => Numbering
  }

  /** The target `write` registers, relative to `word/document.xml`. */
  function PartTarget(p: OptionalPart): string
  {
    match p
    case FontTablePart => "fontTable.xml"
    case FootnotesPart => "footnotes.xml"
    case EndnotesPart => "endnotes.xml"
    case SettingsPart => "settings.xml"
    case WebSettingsPart => "webSettings.xml"
    case CommentsPart => "comments.xml"
    case NumberingPart => "numbering.xml"
  }

  /** The zip entry name `write` gives the part. */
  function PartEntry(p: OptionalPart): string
  {
    match p
    case FontTablePart => "word/fontTable.xml"
    case FootnotesPart => "word/footnotes.xml"
    case EndnotesPart => "word/endnotes.xml"
    case SettingsPart => "word/settings.xml"
    case WebSettingsPart => "word/webSettings.xml"
    case CommentsPart => "word/comments.xml"
    case NumberingPart => "word/numbering.xml"
  }

  function PartRel(p: OptionalPart): Relationship
  {
    Relationship(PartRelType(p), PartTarget(p))
  }

  /** The relationship registered for a part points at the entry the part is written to. */
  lemma PartEntryIsTarget(p: OptionalPart)
    ensures PartEntry(p) == "word/" + PartRel(p).target
  {
    match p
    case FontTablePart =>
      assert "word/fontTable.xml" == "word/" + "fontTable.xml";
    case FootnotesPart =>
      assert "word/footnotes.xml" == "word/" + "footnotes.xml";
    case EndnotesPart =>
      assert "word/endnotes.xml" == "word/" + "endnotes.xml";
    case SettingsPart =>
      assert "word/settings.xml" == "word/" + "settings.xml";
    case WebSettingsPart =>
      assert "word/webSettings.xml" == "word/" + "webSettings.xml";
    case CommentsPart =>
      assert "word/comments.xml" == "word/" + "comments.xml";
    case NumberingPart =>
      assert "word/numbering.xml" == "word/" + "numbering.xml";
  }

  // ---------------------------------------------------------------- what `write` registers

  /** The package relationships (`_rels/.rels`) one call of `write` adds. */
  function PackageRels(hasApp: bool, hasCore: bool): seq<Relationship>
  {
    (if hasApp then [Relationship(ExtendedProperties, "docProps/app.xml")] else [])
    + (if hasCore then [Relationship(CoreProperties, "docProps/core.xml")] else [])
    + [Relationship(OfficeDocument, "word/document.xml")]
  }

  /** The relationships the present optional parts add, in the order of `parts`. */
  function OptionalRels(parts: seq<OptionalPart>, present: set<OptionalPart>): seq<Relationship>
  {
    if parts == [] then []
    else
      OptionalRels(parts[..|parts| - 1], present)
      + (if parts[|parts| - 1] in present then [PartRel(parts[|parts| - 1])] else [])
  }

  lemma OptionalRelsSnoc(parts: seq<OptionalPart>, p: OptionalPart, present: set<OptionalPart>)
    ensures OptionalRels(parts + [p], present) == OptionalRels(parts, present) + (if p in present then [PartRel(p)] else [])
  {
    assert (parts + [p])[..|parts|] == parts;
  }

  /** One relationship per key, all of type `ty`, in the map's iteration order. */
  function KeyRels(ty: RelType, order: seq<string>): (r: seq<Relationship>)
    ensures |r| == |order| && forall i :: 0 <= i < |order| ==> r[i] == Relationship(ty, order[i])
  {
    if order == [] then [] else KeyRels(ty, order[..|order| - 1]) + [Relationship(ty, order[|order| - 1])]
  }

  /** One relationship per media entry, typed by its media type. */
  function MediaRels(order: seq<string>, media: map<string, (MediaType, Bytes)>, relType: MediaType -> RelType): (r: seq<Relationship>)
    requires forall k :: k in order ==> k in media
    ensures |r| == |order|
    ensures forall i :: 0 <= i < |order| ==> r[i] == Relationship(relType(media[order[i]].0), order[i])
  {
    if order == [] then []
    else MediaRels(order[..|order| - 1], media, relType) + [Relationship(relType(media[order[|order| - 1]].0), order[|order| - 1])]
  }

  /** The part relationships (`word/_rels/document.xml.rels`) one call of `write` adds. */
  function DocumentRels(present: set<OptionalPart>, headerOrder: seq<string>, footerOrder: seq<string>,
                        themeOrder: seq<string>, mediaOrder: seq<string>,
                        media: map<string, (MediaType, Bytes)>, relType: MediaType -> RelType): seq<Relationship>
    requires forall k :: k in mediaOrder ==> k in media
  {
    [Relationship(Styles, "styles.xml")]
    + OptionalRels(OPTIONAL_PARTS, present)
    + KeyRels(Header, headerOrder)
    // Footers are registered with the header relationship type.
    + KeyRels(Header, footerOrder)
    + KeyRels(Theme, themeOrder)
    + MediaRels(mediaOrder, media, relType)
  }

  // ---------------------------------------------------------------- what `write` writes

  /** A zip entry `write` starts; `EntryName` is the name it is started under. */
  datatype Entry =
    | ContentTypesEntry | AppEntry | CoreEntry | PackageRelsEntry | DocumentEntry | StylesEntry
    | OptionalEntry(part: OptionalPart)
    | DocumentRelsEntry | SettingsRelsEntry
    | WordEntry(key: string)
    | CustomEntry(path: string)

  function EntryName(e: Entry): string
  {
    match e
    case ContentTypesEntry => "[Content_Types].xml"
    case AppEntry => "docProps/app.xml"
    case CoreEntry => "docProps/core.xml"
    case PackageRelsEntry => "_rels/.rels"
    case DocumentEntry => "word/document.xml"
    case StylesEntry => "word/styles.xml"
    case OptionalEntry(p) => PartEntry(p)
    case DocumentRelsEntry => "word/_rels/document.xml.rels"
    case SettingsRelsEntry => "word/_rels/settings.xml.rels"
    case WordEntry(key) => "word/" + key
    case CustomEntry(path) => path
  }

  /** The present optional parts' entries, in the order of `parts`. */
  function OptionalEntries(parts: seq<OptionalPart>, present: set<OptionalPart>): seq<Entry>
  {
    if parts == [] then []
    else
      OptionalEntries(parts[..|parts| - 1], present)
      + (if parts[|parts| - 1] in present then [OptionalEntry(parts[|parts| - 1])] else [])
  }

  lemma OptionalEntriesSnoc(parts: seq<OptionalPart>, p: OptionalPart, present: set<OptionalPart>)
    ensures OptionalEntries(parts + [p], present) == OptionalEntries(parts, present) + (if p in present then [OptionalEntry(p)] else [])
  {
    assert (parts + [p])[..|parts|] == parts;
  }

  /** The entries of the fixed write list, in order. */
  function FixedEntries(hasApp: bool, hasCore: bool, present: set<OptionalPart>, hasDocumentRels: bool, hasSettingsRels: bool): seq<Entry>
  {
    LeadingEntries(hasApp, hasCore) + OptionalEntries(OPTIONAL_PARTS, present) + RelsEntries(hasDocumentRels, hasSettingsRels)
  }

  /** The head of the fixed list: content types, the package properties, the package relationships, body and styles. */
  function LeadingEntries(hasApp: bool, hasCore: bool): seq<Entry>
  {
    [ContentTypesEntry]
    + (if hasApp then [AppEntry] else [])
    + (if hasCore then [CoreEntry] else [])
    + [PackageRelsEntry, DocumentEntry, StylesEntry]
  }

  /** The tail of the fixed list: the part relationship files that are present. */
  function RelsEntries(hasDocumentRels: bool, hasSettingsRels: bool): seq<Entry>
  {
    (if hasDocumentRels then [DocumentRelsEntry] else [])
    + (if hasSettingsRels then [SettingsRelsEntry] else [])
  }

  /** `format!("word/{}", key)` for every key, in the map's iteration order. */
  function WordEntries(order: seq<string>): (r: seq<Entry>)
    ensures |r| == |order| && forall i :: 0 <= i < |order| ==> r[i] == WordEntry(order[i])
  {
    if order == [] then [] else WordEntries(order[..|order| - 1]) + [WordEntry(order[|order| - 1])]
  }

  /** The custom XML entries, under their own names. */
  function CustomEntries(order: seq<string>): (r: seq<Entry>)
    ensures |r| == |order| && forall i :: 0 <= i < |order| ==> r[i] == CustomEntry(order[i])
  {
    if order == [] then [] else CustomEntries(order[..|order| - 1]) + [CustomEntry(order[|order| - 1])]
  }

  /** Every entry `write` starts, in order: the fixed list, then headers, footers, themes, media and custom XML. */
  function WrittenEntries(hasApp: bool, hasCore: bool, present: set<OptionalPart>, hasDocumentRels: bool, hasSettingsRels: bool,
                          headerOrder: seq<string>, footerOrder: seq<string>, themeOrder: seq<string>,
                          mediaOrder: seq<string>, customOrder: seq<string>): seq<Entry>
  {
    FixedEntries(hasApp, hasCore, present, hasDocumentRels, hasSettingsRels)
    + WordEntries(headerOrder) + WordEntries(footerOrder) + WordEntries(themeOrder) + WordEntries(mediaOrder)
    + CustomEntries(customOrder)
  }

  // ---------------------------------------------------------------- the sanitizer over a map of parts

  /** Every header (or footer) with its drawings sanitized; the keys stay. */
  function SanitizedParts(m: map<string, BlockPart>): (r: map<string, BlockPart>)
    ensures r.Keys == m.Keys
  {
    map k | k in m :: DocumentTree.SanitizedBlocks(m[k])
  }

  /** `for (_, header) in &mut self.headers`: walks every part of the map, in whatever order it iterates. */
  method SanitizePartMap(m: map<string, BlockPart>) returns (m': map<string, BlockPart>)
    ensures m' == SanitizedParts(m)
  {
    m' := m;
    var todo := m.Keys;
    while todo != {}
      invariant todo <= m.Keys && m'.Keys == m.Keys
      invariant forall k :: k in m && k !in todo ==> m'[k] == DocumentTree.SanitizedBlocks(m[k])
      invariant forall k :: k in todo ==> m'[k] == m[k]
      decreases |todo|
    {
      var k :| k in todo;
      var content := DocumentTree.SanitizeBlocks(m'[k]);
      m' := m'[k := content];
      todo := todo - {k};
    }
  }

  // ---------------------------------------------------------------- the package

  /** `Docx`: the parsed package, updated in place by the sanitizer and by `write`. */
  class Docx {
    var app: Option<Part>
    var core: Option<Part>
    var contentTypes: Part
    var document: BlockPart
    var fontTable: Option<Part>
    var styles: Part
    var rels: seq<Relationship>
    var documentRels: Option<seq<Relationship>>
    var settingsRels: Option<seq<Relationship>>
    var headers: map<string, BlockPart>
    var footers: map<string, BlockPart>
    var themes: map<string, Part>
    var media: map<string, (MediaType, Bytes)>
    var footnotes: Option<Part>
    var endnotes: Option<Part>
    var settings: Option<Part>
    var webSettings: Option<Part>
    var comments: Option<Part>
    var numbering: Option<Part>
    var customXml: map<string, Bytes>

    /** The struct literal, field by field. */
    constructor (app: Option<Part>, core: Option<Part>, contentTypes: Part, document: BlockPart,
                 fontTable: Option<Part>, styles: Part, rels: seq<Relationship>,
                 documentRels: Option<seq<Relationship>>, settingsRels: Option<seq<Relationship>>,
                 headers: map<string, BlockPart>, footers: map<string, BlockPart>, themes: map<string, Part>,
                 media: map<string, (MediaType, Bytes)>, footnotes: Option<Part>, endnotes: Option<Part>,
                 settings: Option<Part>, webSettings: Option<Part>, comments: Option<Part>, numbering: Option<Part>,
                 customXml: map<string, Bytes>)
      ensures this.app == app && this.core == core && this.contentTypes == contentTypes && this.document == document
      ensures this.fontTable == fontTable && this.styles == styles && this.rels == rels
      ensures this.documentRels == documentRels && this.settingsRels == settingsRels
      ensures this.headers == headers && this.footers == footers && this.themes == themes && this.media == media
      ensures this.footnotes == footnotes && this.endnotes == endnotes && this.settings == settings
      ensures this.webSettings == webSettings && this.comments == comments && this.numbering == numbering
      ensures this.customXml == customXml
    {
      this.app, this.core, this.contentTypes, this.document := app, core, contentTypes, document;
      this.fontTable, this.styles, this.rels := fontTable, styles, rels;
      this.documentRels, this.settingsRels := documentRels, settingsRels;
      this.headers, this.footers, this.themes, this.media := headers, footers, themes, media;
      this.footnotes, this.endnotes, this.settings := footnotes, endnotes, settings;
      this.webSettings, this.comments, this.numbering := webSettings, comments, numbering;
      this.customXml := customXml;
    }

    /** Whether an optional part of the main document is present. */
    predicate Has(p: OptionalPart)
      reads this`fontTable, this`footnotes, this`endnotes, this`settings, this`webSettings, this`comments, this`numbering
    {
      match p
      case FontTablePart => fontTable.Some?
      case FootnotesPart => footnotes.Some?
      case EndnotesPart => endnotes.Some?
      case SettingsPart => settings.Some?
      case WebSettingsPart => webSettings.Some?
      case CommentsPart => comments.Some?
      case NumberingPart => numbering.Some?
    }

    function Present(): set<OptionalPart>
      reads this`fontTable, this`footnotes, this`endnotes, this`settings, this`webSettings, this`comments, this`numbering
    {
      set p | p in OPTIONAL_PARTS && Has(p)
    }

    // ------------------------------------------------------------ sanitize_all_drawings

    /**
     * `sanitize_all_drawings`: the body, then every header, then every footer. The drawing sanitizer never
     * fails, so none of the three `?` returns early.
     */
    method SanitizeAllDrawings() returns (r: DocxResult<()>)
      modifies this`document, this`headers, this`footers
      ensures document == DocumentTree.SanitizedBlocks(old(document))
      ensures headers == SanitizedParts(old(headers))
      ensures footers == SanitizedParts(old(footers))
      ensures r == Ok(())
    {
      SanitizeDrawingsInBody();
      SanitizeDrawingsInHeaders();
      SanitizeDrawingsInFooters();
      r := Ok(());
    }

    method SanitizeDrawingsInBody()
      modifies this`document
      ensures document == DocumentTree.SanitizedBlocks(old(document))
    {
      document := DocumentTree.SanitizeBlocks(document);
    }

    method SanitizeDrawingsInHeaders()
      modifies this`headers
      ensures headers == SanitizedParts(old(headers))
    {
      headers := SanitizePartMap(headers);
    }

    method SanitizeDrawingsInFooters()
      modifies this`footers
      ensures footers == SanitizedParts(old(footers))
    {
      footers := SanitizePartMap(footers);
    }

    // ------------------------------------------------------------ write: relationships

    /** `self.document_rels.get_or_insert(Relationships::default()).add_rel(...)`. */
    method AddDocumentRel(rel: Relationship)
      modifies this`documentRels
      ensures documentRels.Some? && documentRels.value == old(documentRels).GetOr([]) + [rel]
    {
      var existing := documentRels.GetOr([]);
      documentRels := Some(existing + [rel]);
    }

    /** `if self.<part>.is_some() { ... add_rel(<type>, "<part>.xml") }`; the styles relationship already exists. */
    method AddPartRel(p: OptionalPart, ghost base: seq<Relationship>, ghost done: seq<OptionalPart>)
      requires documentRels.Some? && documentRels.value == base + OptionalRels(done, Present())
      modifies this`documentRels
      ensures documentRels.Some? && documentRels.value == base + OptionalRels(done + [p], Present())
    {
      OptionalRelsSnoc(done, p, Present());
      if Has(p) {
        AddDocumentRel(PartRel(p));
      }
    }

    /** `for hd in &self.headers { ... add_rel(ty, hd.0) }`, visiting the keys in `order`; the styles relationship already exists. */
    method AddKeyRels(ty: RelType, order: seq<string>)
      requires documentRels.Some?
      modifies this`documentRels
      ensures documentRels.Some? && documentRels.value == old(documentRels).value + KeyRels(ty, order)
    {
      ghost var base := documentRels.value;
      for i := 0 to |order|
        invariant documentRels.Some? && documentRels.value == base + KeyRels(ty, order[..i])
      {
        assert order[..i + 1][..i] == order[..i];
        AddDocumentRel(Relationship(ty, order[i]));
      }
      assert order[..|order|] == order;
    }

    /** `for media in &self.media { add_rel(get_media_type_relation_type(..), media.0) }`. */
    method AddMediaRels(order: seq<string>, relType: MediaType -> RelType)
      requires documentRels.Some? && forall k :: k in order ==> k in media
      modifies this`documentRels
      ensures documentRels.Some? && documentRels.value == old(documentRels).value + MediaRels(order, media, relType)
    {
      ghost var base := documentRels.value;
      for i := 0 to |order|
        invariant documentRels.Some? && documentRels.value == base + MediaRels(order[..i], media, relType)
      {
        assert order[..i + 1][..i] == order[..i];
        AddDocumentRel(Relationship(relType(media[order[i]].0), order[i]));
      }
      assert order[..|order|] == order;
    }

    /** The seven `if self.<part>.is_some()` registrations, in their fixed order. */
    method AddOptionalPartRels()
      requires documentRels.Some?
      modifies this`documentRels
      ensures documentRels.Some? && documentRels.value == old(documentRels).value + OptionalRels(OPTIONAL_PARTS, Present())
    {
      ghost var base := documentRels.value;
      ghost var done: seq<OptionalPart> := [];
      assert base + OptionalRels(done, Present()) == base;
      AddPartRel(FontTablePart, base, done);
      done := done + [FontTablePart];
      AddPartRel(FootnotesPart, base, done);
      done := done + [FootnotesPart];
      AddPartRel(EndnotesPart, base, done);
      done := done + [EndnotesPart];
      AddPartRel(SettingsPart, base, done);
      done := done + [SettingsPart];
      AddPartRel(WebSettingsPart, base, done);
      done := done + [WebSettingsPart];
      AddPartRel(CommentsPart, base, done);
      done := done + [CommentsPart];
      AddPartRel(NumberingPart, base, done);
      done := done + [NumberingPart];
      assert done == OPTIONAL_PARTS;
    }

    /** The package relationships `write` registers: app and core when present, then the main document. */
    method RegisterPackageRels()
      modifies this`rels
      ensures rels == old(rels) + PackageRels(app.Some?, core.Some?)
    {
      if app.Some? {
        rels := rels + [Relationship(ExtendedProperties, "docProps/app.xml")];
      }
      if core.Some? {
        rels := rels + [Relationship(CoreProperties, "docProps/core.xml")];
      }
      rels := rels + [Relationship(OfficeDocument, "word/document.xml")];
    }

    /** The part relationships `write` registers, `document_rels` being created when absent. */
    method RegisterDocumentRels(headerOrder: seq<string>, footerOrder: seq<string>, themeOrder: seq<string>,
                                mediaOrder: seq<string>, relType: MediaType -> RelType)
      requires forall k :: k in mediaOrder ==> k in media
      modifies this`documentRels
      ensures documentRels.Some? && documentRels.value == old(documentRels).GetOr([])
        + DocumentRels(Present(), headerOrder, footerOrder, themeOrder, mediaOrder, media, relType)
    {
      ghost var before := documentRels.GetOr([]);
      ghost var styles := [Relationship(Styles, "styles.xml")];
      ghost var opt, hs, fs, ts, ms := OptionalRels(OPTIONAL_PARTS, Present()), KeyRels(Header, headerOrder),
        KeyRels(Header, footerOrder), KeyRels(Theme, themeOrder), MediaRels(mediaOrder, media, relType);
      AddDocumentRel(Relationship(Styles, "styles.xml"));
      AddOptionalPartRels();
      AddKeyRels(Header, headerOrder);
      AddKeyRels(Header, footerOrder);
      AddKeyRels(Theme, themeOrder);
      AddMediaRels(mediaOrder, relType);
      Seqs.AppendAssoc(before, styles + opt + hs + fs + ts, ms);
      Seqs.AppendAssoc(before, styles + opt + hs + fs, ts);
      Seqs.AppendAssoc(before, styles + opt + hs, fs);
      Seqs.AppendAssoc(before, styles + opt, hs);
      Seqs.AppendAssoc(before, styles, opt);
    }

    /**
     * The "Add Relationships" half of `write`. The HashMaps' iteration orders are parameters, as is the crate's
     * `get_media_type_relation_type`.
     */
    method RegisterRelationships(headerOrder: seq<string>, footerOrder: seq<string>, themeOrder: seq<string>,
                                 mediaOrder: seq<string>, relType: MediaType -> RelType)
      requires Seqs.IsEnumeration(headerOrder, headers.Keys) && Seqs.IsEnumeration(footerOrder, footers.Keys)
      requires Seqs.IsEnumeration(themeOrder, themes.Keys) && Seqs.IsEnumeration(mediaOrder, media.Keys)
      modifies this`rels, this`documentRels
      ensures rels == old(rels) + PackageRels(app.Some?, core.Some?)
      ensures documentRels.Some? && documentRels.value == old(documentRels).GetOr([])
        + DocumentRels(Present(), headerOrder, footerOrder, themeOrder, mediaOrder, media, relType)
    {
      RegisterPackageRels();
      RegisterDocumentRels(headerOrder, footerOrder, themeOrder, mediaOrder, relType);
    }

    // ------------------------------------------------------------ write: entries

    /** `write_xml!(Some(self.<part>) => "word/<part>.xml")`: starts the entry when the part is present. */
    method WritePartEntry(p: OptionalPart, entries: seq<Entry>, ghost base: seq<Entry>, ghost done: seq<OptionalPart>)
      returns (entries': seq<Entry>)
      requires entries == base + OptionalEntries(done, Present())
      ensures entries' == base + OptionalEntries(done + [p], Present())
    {
      OptionalEntriesSnoc(done, p, Present());
      entries' := entries;
      if Has(p) {
        entries' := entries' + [OptionalEntry(p)];
      }
    }

    /** The seven optional entries of the `write_xml!` list, in their fixed order. */
    method WriteOptionalEntries() returns (entries: seq<Entry>)
      ensures entries == OptionalEntries(OPTIONAL_PARTS, Present())
    {
      entries := [];
      ghost var done: seq<OptionalPart> := [];
      entries := WritePartEntry(FontTablePart, entries, [], done);
      done := done + [FontTablePart];
      entries := WritePartEntry(FootnotesPart, entries, [], done);
      done := done + [FootnotesPart];
      entries := WritePartEntry(EndnotesPart, entries, [], done);
      done := done + [EndnotesPart];
      entries := WritePartEntry(SettingsPart, entries, [], done);
      done := done + [SettingsPart];
      entries := WritePartEntry(WebSettingsPart, entries, [], done);
      done := done + [WebSettingsPart];
      entries := WritePartEntry(CommentsPart, entries, [], done);
      done := done + [CommentsPart];
      entries := WritePartEntry(NumberingPart, entries, [], done);
      done := done + [NumberingPart];
      assert done == OPTIONAL_PARTS;
    }

    /** The head of the `write_xml!` list. */
    method WriteLeadingEntries() returns (entries: seq<Entry>)
      ensures entries == LeadingEntries(app.Some?, core.Some?)
    {
      entries := [ContentTypesEntry];
      if app.Some? {
        entries := entries + [AppEntry];
      }
      if core.Some? {
        entries := entries + [CoreEntry];
      }
      entries := entries + [PackageRelsEntry, DocumentEntry, StylesEntry];
    }

    /** The tail of the `write_xml!` list. */
    method WriteRelsEntries() returns (entries: seq<Entry>)
      ensures entries == RelsEntries(documentRels.Some?, settingsRels.Some?)
    {
      entries := [];
      if documentRels.Some? {
        entries := entries + [DocumentRelsEntry];
      }
      if settingsRels.Some? {
        entries := entries + [SettingsRelsEntry];
      }
    }

    /** The `write_xml!` list: the entries it starts, in order. */
    method WriteFixedEntries() returns (entries: seq<Entry>)
      ensures entries == FixedEntries(app.Some?, core.Some?, Present(), documentRels.Some?, settingsRels.Some?)
    {
      entries := WriteLeadingEntries();
      var optional := WriteOptionalEntries();
      var tail := WriteRelsEntries();
      entries := entries + optional + tail;
    }

    /**
     * `write`: registers the relationships, then starts every entry and writes it. Writer errors are not
     * modelled; the result is the list of entries, in the order they are started.
     */
    method Write(headerOrder: seq<string>, footerOrder: seq<string>, themeOrder: seq<string>,
                 mediaOrder: seq<string>, customOrder: seq<string>, relType: MediaType -> RelType)
      returns (entries: seq<Entry>)
      requires Seqs.IsEnumeration(headerOrder, headers.Keys) && Seqs.IsEnumeration(footerOrder, footers.Keys)
      requires Seqs.IsEnumeration(themeOrder, themes.Keys) && Seqs.IsEnumeration(mediaOrder, media.Keys)
      requires Seqs.IsEnumeration(customOrder, customXml.Keys)
      modifies this`rels, this`documentRels
      ensures rels == old(rels) + PackageRels(app.Some?, core.Some?)
      ensures documentRels.Some? && documentRels.value == old(documentRels).GetOr([])
        + DocumentRels(Present(), headerOrder, footerOrder, themeOrder, mediaOrder, media, relType)
      ensures entries == WrittenEntries(app.Some?, core.Some?, Present(), true, settingsRels.Some?,
                                        headerOrder, footerOrder, themeOrder, mediaOrder, customOrder)
    {
      RegisterRelationships(headerOrder, footerOrder, themeOrder, mediaOrder, relType);
      entries := WriteFixedEntries();
      var headerEntries := WriteWordEntries(headerOrder);
      var footerEntries := WriteWordEntries(footerOrder);
      var themeEntries := WriteWordEntries(themeOrder);
      var mediaEntries := WriteWordEntries(mediaOrder);
      var customEntries := WriteCustomEntries(customOrder);
      entries := entries + headerEntries + footerEntries + themeEntries + mediaEntries + customEntries;
    }

    /**
     * `write_file_compatible`: sanitizes every drawing, then writes. Creating the file and its directory is
     * not modelled.
     */
    method WriteCompatible(headerOrder: seq<string>, footerOrder: seq<string>, themeOrder: seq<string>,
                           mediaOrder: seq<string>, customOrder: seq<string>, relType: MediaType -> RelType)
      returns (r: DocxResult<seq<Entry>>)
      requires Seqs.IsEnumeration(headerOrder, headers.Keys) && Seqs.IsEnumeration(footerOrder, footers.Keys)
      requires Seqs.IsEnumeration(themeOrder, themes.Keys) && Seqs.IsEnumeration(mediaOrder, media.Keys)
      requires Seqs.IsEnumeration(customOrder, customXml.Keys)
      modifies this`document, this`headers, this`footers, this`rels, this`documentRels
      ensures document == DocumentTree.SanitizedBlocks(old(document))
      ensures headers == SanitizedParts(old(headers)) && footers == SanitizedParts(old(footers))
      ensures rels == old(rels) + PackageRels(app.Some?, core.Some?)
      ensures documentRels.Some? && documentRels.value == old(documentRels).GetOr([])
        + DocumentRels(Present(), headerOrder, footerOrder, themeOrder, mediaOrder, media, relType)
      ensures r == Ok(WrittenEntries(app.Some?, core.Some?, Present(), true, settingsRels.Some?,
                                     headerOrder, footerOrder, themeOrder, mediaOrder, customOrder))
    {
      var _ := SanitizeAllDrawings();
      var entries := Write(headerOrder, footerOrder, themeOrder, mediaOrder, customOrder, relType);
      r := Ok(entries);
    }
  }

  /** The `format!("word/{}", ..)` loop over one map's keys. */
  method WriteWordEntries(order: seq<string>) returns (entries: seq<Entry>)
    ensures entries == WordEntries(order)
  {
    entries := [];
    for i := 0 to |order|
      invariant entries == WordEntries(order[..i])
    {
      assert order[..i + 1][..i] == order[..i];
      entries := entries + [WordEntry(order[i])];
    }
    assert order[..|order|] == order;
  }

  /** The `custom_xml` loop: each entry under its own path. */
  method WriteCustomEntries(order: seq<string>) returns (entries: seq<Entry>)
    ensures entries == CustomEntries(order)
  {
    entries := [];
    for i := 0 to |order|
      invariant entries == CustomEntries(order[..i])
    {
      assert order[..i + 1][..i] == order[..i];
      entries := entries + [CustomEntry(order[i])];
    }
    assert order[..|order|] == order;
  }

  // ---------------------------------------------------------------- properties

  /** The fixed list names every optional part. */
  lemma AllPartsListed(p: OptionalPart)
    ensures p in OPTIONAL_PARTS
  {
    match p
    case FontTablePart => assert OPTIONAL_PARTS[0] == p;
    case FootnotesPart => assert OPTIONAL_PARTS[1] == p;
    case EndnotesPart => assert OPTIONAL_PARTS[2] == p;
    case SettingsPart => assert OPTIONAL_PARTS[3] == p;
    case WebSettingsPart => assert OPTIONAL_PARTS[4] == p;
    case CommentsPart => assert OPTIONAL_PARTS[5] == p;
    case NumberingPart => assert OPTIONAL_PARTS[6] == p;
  }

  /** A registered optional relationship belongs to a present part of the list, and each present part is registered. */
  lemma {:induction false} OptionalRelsMember(parts: seq<OptionalPart>, present: set<OptionalPart>, r: Relationship)
    ensures r in OptionalRels(parts, present) <==> exists p :: p in parts && p in present && r == PartRel(p)
    decreases |parts|
  {
    if parts != [] {
      var init, last := parts[..|parts| - 1], parts[|parts| - 1];
      OptionalRelsMember(init, present, r);
      assert parts == init + [last];
      if exists p :: p in parts && p in present && r == PartRel(p) {
        var p :| p in parts && p in present && r == PartRel(p);
        if p != last {
          assert p in init;
        }
      }
    }
  }

  /** A written optional entry is a present part of the list, and each present part is written. */
  lemma {:induction false} OptionalEntriesMember(parts: seq<OptionalPart>, present: set<OptionalPart>, e: Entry)
    ensures e in OptionalEntries(parts, present) <==> e.OptionalEntry? && e.part in parts && e.part in present
    decreases |parts|
  {
    if parts != [] {
      var init, last := parts[..|parts| - 1], parts[|parts| - 1];
      OptionalEntriesMember(init, present, e);
      assert parts == init + [last];
    }
  }

  /** Each optional part is registered exactly when it is present. */
  lemma OptionalRelsExactlyPresent(present: set<OptionalPart>, p: OptionalPart)
    ensures PartRel(p) in OptionalRels(OPTIONAL_PARTS, present) <==> p in present
  {
    AllPartsListed(p);
    OptionalRelsMember(OPTIONAL_PARTS, present, PartRel(p));
  }

  /** Package relationships: app, then core, then the main document, each present part once. */
  lemma PackageRelsOrder(hasApp: bool, hasCore: bool)
    ensures |PackageRels(hasApp, hasCore)| == 1 + (if hasApp then 1 else 0) + (if hasCore then 1 else 0)
    ensures PackageRels(hasApp, hasCore)[|PackageRels(hasApp, hasCore)| - 1] == Relationship(OfficeDocument, "word/document.xml")
    ensures Relationship(ExtendedProperties, "docProps/app.xml") in PackageRels(hasApp, hasCore) <==> hasApp
    ensures Relationship(CoreProperties, "docProps/core.xml") in PackageRels(hasApp, hasCore) <==> hasCore
    ensures hasApp ==> PackageRels(hasApp, hasCore)[0].ty == ExtendedProperties
    ensures hasCore ==> PackageRels(hasApp, hasCore)[if hasApp then 1 else 0].ty == CoreProperties
  {
  }

  /** One relationship per present optional part and per header, footer, theme and media entry, after styles. */
  lemma DocumentRelsCount(present: set<OptionalPart>, headers: map<string, BlockPart>, footers: map<string, BlockPart>,
                          themes: map<string, Part>, media: map<string, (MediaType, Bytes)>,
                          headerOrder: seq<string>, footerOrder: seq<string>, themeOrder: seq<string>,
                          mediaOrder: seq<string>, relType: MediaType -> RelType)
    requires Seqs.IsEnumeration(headerOrder, headers.Keys) && Seqs.IsEnumeration(footerOrder, footers.Keys)
    requires Seqs.IsEnumeration(themeOrder, themes.Keys) && Seqs.IsEnumeration(mediaOrder, media.Keys)
    ensures var rs := DocumentRels(present, headerOrder, footerOrder, themeOrder, mediaOrder, media, relType);
      && rs[0] == Relationship(Styles, "styles.xml")
      && |rs| == 1 + |OptionalRels(OPTIONAL_PARTS, present)| + |headers| + |footers| + |themes| + |media|
      && (forall p :: PartRel(p) in rs[1..1 + |OptionalRels(OPTIONAL_PARTS, present)|] <==> p in present)
  {
    var rs := DocumentRels(present, headerOrder, footerOrder, themeOrder, mediaOrder, media, relType);
    var opt := OptionalRels(OPTIONAL_PARTS, present);
    assert rs[1..1 + |opt|] == opt;
    forall p
      ensures PartRel(p) in opt <==> p in present
    {
      OptionalRelsExactlyPresent(present, p);
    }
  }

  /**
   * Footers are registered with the header relationship type: every footer key has a header-typed relationship,
   * and none carries the footer type unless the media type table yields it.
   */
  lemma FootersRegisteredAsHeaders(present: set<OptionalPart>, footers: map<string, BlockPart>,
                                   media: map<string, (MediaType, Bytes)>,
                                   headerOrder: seq<string>, footerOrder: seq<string>, themeOrder: seq<string>,
                                   mediaOrder: seq<string>, relType: MediaType -> RelType)
    requires Seqs.IsEnumeration(footerOrder, footers.Keys)
    requires forall k :: k in mediaOrder ==> k in media
    ensures forall k :: k in footers ==>
      Relationship(Header, k) in DocumentRels(present, headerOrder, footerOrder, themeOrder, mediaOrder, media, relType)
    ensures (forall m :: relType(m) != Footer) ==>
      forall r :: r in DocumentRels(present, headerOrder, footerOrder, themeOrder, mediaOrder, media, relType) ==> r.ty != Footer
  {
    var rs := DocumentRels(present, headerOrder, footerOrder, themeOrder, mediaOrder, media, relType);
    var opt := OptionalRels(OPTIONAL_PARTS, present);
    forall k | k in footers
      ensures Relationship(Header, k) in rs
    {
      var i :| 0 <= i < |footerOrder| && footerOrder[i] == k;
      assert rs[1 + |opt| + |headerOrder| + i] == Relationship(Header, k);
    }
    if forall m :: relType(m) != Footer {
      forall r | r in rs
        ensures r.ty != Footer
      {
        OptionalRelsMember(OPTIONAL_PARTS, present, r);
      }
    }
  }

  /** The entry a document relationship's target names: "word/" + target, as `write` spells it. */
  predicate WritesTarget(entries: seq<Entry>, r: Relationship)
  {
    exists e :: e in entries && EntryName(e) == "word/" + r.target
  }

  /** Every optional part registered is written, at "word/" + its target. */
  lemma OptionalRelsWritten(present: set<OptionalPart>, r: Relationship)
    requires r in OptionalRels(OPTIONAL_PARTS, present)
    ensures WritesTarget(OptionalEntries(OPTIONAL_PARTS, present), r)
  {
    OptionalRelsMember(OPTIONAL_PARTS, present, r);
    var p :| p in OPTIONAL_PARTS && p in present && r == PartRel(p);
    OptionalEntriesMember(OPTIONAL_PARTS, present, OptionalEntry(p));
    PartEntryIsTarget(p);
  }

  /** Every key registered is written, at "word/" + the key. */
  lemma KeyRelsWritten(ty: RelType, order: seq<string>, r: Relationship)
    requires r in KeyRels(ty, order)
    ensures WritesTarget(WordEntries(order), r)
  {
    var i :| 0 <= i < |order| && KeyRels(ty, order)[i] == r;
    assert EntryName(WordEntries(order)[i]) == "word/" + r.target;
  }

  /** Every media entry registered is written, at "word/" + its name. */
  lemma MediaRelsWritten(order: seq<string>, media: map<string, (MediaType, Bytes)>, relType: MediaType -> RelType, r: Relationship)
    requires forall k :: k in order ==> k in media
    requires r in MediaRels(order, media, relType)
    ensures WritesTarget(WordEntries(order), r)
  {
    var i :| 0 <= i < |order| && MediaRels(order, media, relType)[i] == r;
    assert EntryName(WordEntries(order)[i]) == "word/" + r.target;
  }

  /** The document relationship `r` of one `write` points at an entry of the same `write`. */
  lemma DocumentTargetWritten(hasApp: bool, hasCore: bool, present: set<OptionalPart>, hasSettingsRels: bool,
                              media: map<string, (MediaType, Bytes)>,
                              headerOrder: seq<string>, footerOrder: seq<string>, themeOrder: seq<string>,
                              mediaOrder: seq<string>, customOrder: seq<string>, relType: MediaType -> RelType,
                              r: Relationship)
    requires forall k :: k in mediaOrder ==> k in media
    requires r in DocumentRels(present, headerOrder, footerOrder, themeOrder, mediaOrder, media, relType)
    ensures WritesTarget(WrittenEntries(hasApp, hasCore, present, true, hasSettingsRels,
                                        headerOrder, footerOrder, themeOrder, mediaOrder, customOrder), r)
  {
    var entries := WrittenEntries(hasApp, hasCore, present, true, hasSettingsRels,
                                  headerOrder, footerOrder, themeOrder, mediaOrder, customOrder);
    var fixed := FixedEntries(hasApp, hasCore, present, true, hasSettingsRels);
    var piece: seq<Entry>;
    if r == Relationship(Styles, "styles.xml") {
      piece := LeadingEntries(hasApp, hasCore);
      assert StylesEntry in piece && EntryName(StylesEntry) == "word/" + "styles.xml";
    } else if r in OptionalRels(OPTIONAL_PARTS, present) {
      piece := OptionalEntries(OPTIONAL_PARTS, present);
      OptionalRelsWritten(present, r);
    } else if r in KeyRels(Header, headerOrder) {
      piece := WordEntries(headerOrder);
      KeyRelsWritten(Header, headerOrder, r);
    } else if r in KeyRels(Header, footerOrder) {
      piece := WordEntries(footerOrder);
      KeyRelsWritten(Header, footerOrder, r);
    } else if r in KeyRels(Theme, themeOrder) {
      piece := WordEntries(themeOrder);
      KeyRelsWritten(Theme, themeOrder, r);
    } else {
      piece := WordEntries(mediaOrder);
      MediaRelsWritten(mediaOrder, media, relType, r);
    }
    var e :| e in piece && EntryName(e) == "word/" + r.target;
    assert e in entries;
  }

  /**
   * Every relationship one `write` adds points at an entry the same `write` starts: package relationships at
   * their entry names, document relationships at "word/" + their target.
   */
  lemma RegisteredTargetsAreWritten(hasApp: bool, hasCore: bool, present: set<OptionalPart>, hasSettingsRels: bool,
                                    media: map<string, (MediaType, Bytes)>,
                                    headerOrder: seq<string>, footerOrder: seq<string>, themeOrder: seq<string>,
                                    mediaOrder: seq<string>, customOrder: seq<string>, relType: MediaType -> RelType)
    requires forall k :: k in mediaOrder ==> k in media
    ensures var entries := WrittenEntries(hasApp, hasCore, present, true, hasSettingsRels,
                                          headerOrder, footerOrder, themeOrder, mediaOrder, customOrder);
      && (forall r :: r in PackageRels(hasApp, hasCore) ==> exists e :: e in entries && EntryName(e) == r.target)
      && (forall r :: r in DocumentRels(present, headerOrder, footerOrder, themeOrder, mediaOrder, media, relType) ==>
            WritesTarget(entries, r))
  {
    var lead := LeadingEntries(hasApp, hasCore);
    var entries := WrittenEntries(hasApp, hasCore, present, true, hasSettingsRels,
                                  headerOrder, footerOrder, themeOrder, mediaOrder, customOrder);
    assert forall e :: e in lead ==> e in entries;
    forall r | r in PackageRels(hasApp, hasCore)
      ensures exists e :: e in entries && EntryName(e) == r.target
    {
      if r.ty == ExtendedProperties {
        assert AppEntry in lead && EntryName(AppEntry) == r.target;
      } else if r.ty == CoreProperties {
        assert CoreEntry in lead && EntryName(CoreEntry) == r.target;
      } else {
        assert DocumentEntry in lead && EntryName(DocumentEntry) == r.target;
      }
    }
    forall r | r in DocumentRels(present, headerOrder, footerOrder, themeOrder, mediaOrder, media, relType)
      ensures WritesTarget(entries, r)
    {
      DocumentTargetWritten(hasApp, hasCore, present, hasSettingsRels, media, headerOrder, footerOrder, themeOrder,
                            mediaOrder, customOrder, relType, r);
    }
  }

  /** The fixed list: content types first; required parts always; each optional part exactly when present. */
  lemma FixedEntriesFacts(hasApp: bool, hasCore: bool, present: set<OptionalPart>, hasDocumentRels: bool, hasSettingsRels: bool)
    ensures var entries := FixedEntries(hasApp, hasCore, present, hasDocumentRels, hasSettingsRels);
      && entries[0] == ContentTypesEntry
      && PackageRelsEntry in entries && DocumentEntry in entries && StylesEntry in entries
      && (AppEntry in entries <==> hasApp) && (CoreEntry in entries <==> hasCore)
      && (DocumentRelsEntry in entries <==> hasDocumentRels) && (SettingsRelsEntry in entries <==> hasSettingsRels)
      && (forall p :: OptionalEntry(p) in entries <==> p in present)
  {
    var opt := OptionalEntries(OPTIONAL_PARTS, present);
    forall e | e in opt
      ensures e.OptionalEntry?
    {
      OptionalEntriesMember(OPTIONAL_PARTS, present, e);
    }
    forall p
      ensures OptionalEntry(p) in opt <==> p in present
    {
      AllPartsListed(p);
      OptionalEntriesMember(OPTIONAL_PARTS, present, OptionalEntry(p));
    }
  }

  /** After sanitizing, every header (or footer) is still there and no drawing the walk reaches has an anchor. */
  lemma SanitizedPartsUnanchored(m: map<string, BlockPart>)
    ensures SanitizedParts(m).Keys == m.Keys
    ensures forall k :: k in m ==> DocumentTree.VisitedDrawingsUnanchored(SanitizedParts(m)[k])
  {
    forall k | k in m
      ensures DocumentTree.VisitedDrawingsUnanchored(SanitizedParts(m)[k])
    {
      DocumentTree.WalkLeavesNoAnchor(m[k]);
    }
  }
}
