/**
 * Reading a package (src/docx.rs, `DocxFile`): which zip entries `from_reader` takes out of the archive and
 * what it does when one is missing, unreadable or not UTF-8. The archive itself is a value: its entry names in
 * the order the zip crate lists them, and what each name holds.
 */
module PackageReader {
  import opened Wrappers
  import opened Errors
  import Seqs
  import Strings
  import Package

  /** What an entry of the archive gives when it is opened by name. */
  datatype Stored =
    | Stored(text: Option<string>, bytes: Package.Bytes)  // `text` is None when the bytes are not UTF-8
    | Broken(error: ZipError)                              // `by_name` fails with this error

  datatype Archive = Archive(names: seq<string>, entries: map<string, Stored>)

  /** `zip.by_name(name)`. */
  function ByName(z: Archive, name: string): (r: Result<Stored, ZipError>)
    ensures r.Ok? ==> r.value.Stored?
  {
    if name !in z.entries then Err(FileNotFound)
    else if z.entries[name].Broken? then Err(z.entries[name].error)
    else Ok(z.entries[name])
  }

  /** `read!`: a part that must be there, read as UTF-8 text. */
  function Read(z: Archive, name: string): DocxResult<string>
  {
    match ByName(z, name)
    case Err(e) => Err(Zip(e))
    case Ok(s) => if s.text.Some? then Ok(s.text.value) else Err(IO(InvalidData))
  }

  /** `option_read!`: a part that may be missing. */
  function OptionRead(z: Archive, name: string): DocxResult<Option<string>>
  {
    match ByName(z, name)
    case Err(FileNotFound) => Ok(None)
    case Err(e) => Err(Zip(e))
    case Ok(s) => if s.text.Some? then Ok(Some(s.text.value)) else Err(IO(InvalidData))
  }

  /** The text stored under a name, if there is readable text under it. */
  function TextUnder(z: Archive, name: string): Option<string>
  {
    if name in z.entries && z.entries[name].Stored? then z.entries[name].text else None
  }

  /** A missing part reads as None; a readable one as its text; anything else is an error. */
  lemma OptionReadMeaning(z: Archive, name: string)
    ensures OptionRead(z, name).Ok? <==>
      name !in z.entries || z.entries[name] == Broken(FileNotFound) || TextUnder(z, name).Some?
    ensures OptionRead(z, name).Ok? && name in z.entries && z.entries[name].Stored? ==>
      OptionRead(z, name).value == TextUnder(z, name)
    ensures name !in z.entries ==> OptionRead(z, name) == Ok(None)
  {
  }

  /** `option_read_multiple!`'s per-name step: the names containing `sub` that open and read as text. */
  function TextEntry(z: Archive, sub: string, name: string): Option<(string, string)>
  {
    if Strings.Contains(name, sub) && ByName(z, name).Ok? && ByName(z, name).value.text.Some?
    then Some((name, ByName(z, name).value.text.value))
    else None
  }

  /** `option_read_multiple!`: every listed entry whose name contains `sub`; unreadable ones are dropped silently. */
  function ReadMultiple(z: Archive, sub: string): seq<(string, string)>
  {
    Seqs.FilterMap(z.names, (name: string) => TextEntry(z, sub, name))
  }

  function BytesEntry(z: Archive, sub: string, name: string): Option<(string, Package.Bytes)>
  {
    if Strings.Contains(name, sub) && ByName(z, name).Ok?
    then Some((name, ByName(z, name).value.bytes))
    else None
  }

  /** `option_read_multiple_files!`: the same selection, keeping raw bytes. */
  function ReadMultipleFiles(z: Archive, sub: string): seq<(string, Package.Bytes)>
  {
    Seqs.FilterMap(z.names, (name: string) => BytesEntry(z, sub, name))
  }

  /** A name and its text are collected exactly when the name is listed, contains `sub` and holds readable text. */
  lemma ReadMultipleMember(z: Archive, sub: string, name: string, text: string)
    ensures (name, text) in ReadMultiple(z, sub) <==>
      name in z.names && Strings.Contains(name, sub) && TextUnder(z, name) == Some(text)
  {
    var f := (n: string) => TextEntry(z, sub, n);
    Seqs.FilterMapMember(z.names, f, (name, text));
    if name in z.names && Strings.Contains(name, sub) && TextUnder(z, name) == Some(text) {
      var i :| 0 <= i < |z.names| && z.names[i] == name;
      assert f(z.names[i]) == Some((name, text));
    }
  }

  /** A name and its bytes are collected exactly when the name is listed, contains `sub` and opens. */
  lemma ReadMultipleFilesMember(z: Archive, sub: string, name: string, bytes: Package.Bytes)
    ensures (name, bytes) in ReadMultipleFiles(z, sub) <==>
      name in z.names && Strings.Contains(name, sub) && name in z.entries && z.entries[name].Stored? && z.entries[name].bytes == bytes
  {
    var f := (n: string) => BytesEntry(z, sub, n);
    Seqs.FilterMapMember(z.names, f, (name, bytes));
    if name in z.names && Strings.Contains(name, sub) && name in z.entries && z.entries[name].Stored? && z.entries[name].bytes == bytes {
      var i :| 0 <= i < |z.names| && z.names[i] == name;
      assert f(z.names[i]) == Some((name, bytes));
    }
  }

  /** An archive as the zip crate reads one: each entry is listed once, and the listed names are exactly the entries. */
  ghost predicate WellFormed(z: Archive)
  {
    Seqs.IsEnumeration(z.names, z.entries.Keys)
  }

  /** In a well-formed archive, both readers collect an entry exactly when the archive holds it under a matching name. */
  lemma WellFormedReadMultiple(z: Archive, sub: string, name: string, text: string, bytes: Package.Bytes)
    requires WellFormed(z)
    ensures (name, text) in ReadMultiple(z, sub) <==>
      name in z.entries && Strings.Contains(name, sub) && TextUnder(z, name) == Some(text)
    ensures (name, bytes) in ReadMultipleFiles(z, sub) <==>
      name in z.entries && Strings.Contains(name, sub) && z.entries[name].Stored? && z.entries[name].bytes == bytes
  {
    ReadMultipleMember(z, sub, name, text);
    ReadMultipleFilesMember(z, sub, name, bytes);
  }

  // ---------------------------------------------------------------- from_reader

  const CONTENT_TYPES := "[Content_Types].xml"
  const DOCUMENT := "word/document.xml"
  const PACKAGE_RELS := "_rels/.rels"
  const APP := "docProps/app.xml"
  const CORE := "docProps/core.xml"
  const DOCUMENT_RELS := "word/_rels/document.xml.rels"
  const SETTINGS_RELS := "word/_rels/settings.xml.rels"
  const FONT_TABLE := "word/fontTable.xml"
  const STYLES := "word/styles.xml"
  const SETTINGS := "word/settings.xml"
  const WEB_SETTINGS := "word/webSettings.xml"
  const FOOTNOTES := "word/footnotes.xml"
  const ENDNOTES := "word/endnotes.xml"
  const COMMENTS := "word/comments.xml"
  const NUMBERING := "word/numbering.xml"

  /** `DocxFile`: the texts (and media bytes) taken out of the archive, not yet parsed. */
  datatype DocxFile = DocxFile(
    app: Option<string>, contentTypes: string, core: Option<string>, document: string,
    documentRels: Option<string>, settingsRels: Option<string>, fontTable: Option<string>, rels: string,
    styles: Option<string>, settings: Option<string>, webSettings: Option<string>,
    headers: seq<(string, string)>, footers: seq<(string, string)>, themes: seq<(string, string)>,
    medias: seq<(string, Package.Bytes)>, footnotes: Option<string>, endnotes: Option<string>,
    comments: Option<string>, numbering: Option<string>, customXml: seq<(string, Package.Bytes)>)

  /** The single-part reads of `from_reader`, in three consecutive groups so that each can be reasoned about alone. */
  datatype Head = Head(app: Option<string>, contentTypes: string, core: Option<string>,
                       documentRels: Option<string>, settingsRels: Option<string>)
  datatype Middle = Middle(document: string, fontTable: Option<string>, rels: string, styles: Option<string>)
  datatype Tail = Tail(settings: Option<string>, webSettings: Option<string>, footnotes: Option<string>,
                       endnotes: Option<string>, comments: Option<string>, numbering: Option<string>)

  function ReadHead(z: Archive): DocxResult<Head>
  {
    var app :- OptionRead(z, APP);
    var contentTypes :- Read(z, CONTENT_TYPES);
    var core :- OptionRead(z, CORE);
    var documentRels :- OptionRead(z, DOCUMENT_RELS);
    var settingsRels :- OptionRead(z, SETTINGS_RELS);
    Ok(Head(app, contentTypes, core, documentRels, settingsRels))
  }

  function ReadMiddle(z: Archive): DocxResult<Middle>
  {
    var document :- Read(z, DOCUMENT);
    var fontTable :- OptionRead(z, FONT_TABLE);
    var rels :- Read(z, PACKAGE_RELS);
    var styles :- OptionRead(z, STYLES);
    Ok(Middle(document, fontTable, rels, styles))
  }

  function ReadTail(z: Archive): DocxResult<Tail>
  {
    var settings :- OptionRead(z, SETTINGS);
    var webSettings :- OptionRead(z, WEB_SETTINGS);
    var footnotes :- OptionRead(z, FOOTNOTES);
    var endnotes :- OptionRead(z, ENDNOTES);
    var comments :- OptionRead(z, COMMENTS);
    var numbering :- OptionRead(z, NUMBERING);
    Ok(Tail(settings, webSettings, footnotes, endnotes, comments, numbering))
  }

  /**
   * `DocxFile::from_reader`, in its order of reads: the first failing read decides the error. Opening the
   * archive is the parameter `archive`.
   */
  function FromReader(archive: Result<Archive, ZipError>): DocxResult<DocxFile>
  {
    if archive.Err? then Err(Zip(archive.error))
    else
      var z := archive.value;
      var h :- ReadHead(z);
      var m :- ReadMiddle(z);
      var t :- ReadTail(z);
      Ok(DocxFile(h.app, h.contentTypes, h.core, m.document, h.documentRels, h.settingsRels, m.fontTable, m.rels,
                  m.styles, t.settings, t.webSettings,
                  ReadMultiple(z, "word/header"), ReadMultiple(z, "word/footer"), ReadMultiple(z, "word/theme/theme"),
                  ReadMultipleFiles(z, "word/media"), t.footnotes, t.endnotes, t.comments, t.numbering,
                  ReadMultipleFiles(z, "custom")))
  }

  /** The single-part names `from_reader` reads, required and optional. */
  const OPTIONAL_NAMES: seq<string> := [
    APP, CORE, DOCUMENT_RELS, SETTINGS_RELS,
    FONT_TABLE, STYLES, SETTINGS, WEB_SETTINGS,
    FOOTNOTES, ENDNOTES, COMMENTS, NUMBERING]

  /** Every optional single part is missing or reads. */
  predicate OptionalPartsRead(z: Archive)
  {
    && OptionRead(z, APP).Ok? && OptionRead(z, CORE).Ok? && OptionRead(z, DOCUMENT_RELS).Ok?
    && OptionRead(z, SETTINGS_RELS).Ok? && OptionRead(z, FONT_TABLE).Ok? && OptionRead(z, STYLES).Ok?
    && OptionRead(z, SETTINGS).Ok? && OptionRead(z, WEB_SETTINGS).Ok? && OptionRead(z, FOOTNOTES).Ok?
    && OptionRead(z, ENDNOTES).Ok? && OptionRead(z, COMMENTS).Ok? && OptionRead(z, NUMBERING).Ok?
  }

  /** Reading succeeds exactly when every required part reads and every optional part is missing or reads. */
  lemma FromReaderSucceeds(z: Archive)
    ensures FromReader(Ok(z)).Ok? <==>
      Read(z, CONTENT_TYPES).Ok? && Read(z, DOCUMENT).Ok? && Read(z, PACKAGE_RELS).Ok? && OptionalPartsRead(z)
  {
    HeadSucceeds(z);
    MiddleSucceeds(z);
    TailSucceeds(z);
  }

  lemma HeadSucceeds(z: Archive)
    ensures ReadHead(z).Ok? <==>
      (OptionRead(z, APP).Ok? && Read(z, CONTENT_TYPES).Ok? && OptionRead(z, CORE).Ok?
       && OptionRead(z, DOCUMENT_RELS).Ok? && OptionRead(z, SETTINGS_RELS).Ok?)
  {
  }

  lemma MiddleSucceeds(z: Archive)
    ensures ReadMiddle(z).Ok? <==>
      (Read(z, DOCUMENT).Ok? && OptionRead(z, FONT_TABLE).Ok? && Read(z, PACKAGE_RELS).Ok? && OptionRead(z, STYLES).Ok?)
  {
  }

  lemma TailSucceeds(z: Archive)
    ensures ReadTail(z).Ok? <==>
      (OptionRead(z, SETTINGS).Ok? && OptionRead(z, WEB_SETTINGS).Ok? && OptionRead(z, FOOTNOTES).Ok?
       && OptionRead(z, ENDNOTES).Ok? && OptionRead(z, COMMENTS).Ok? && OptionRead(z, NUMBERING).Ok?)
  {
  }

  /** A missing required part fails the read, whatever else the archive holds. */
  lemma RequiredPartMissing(z: Archive)
    requires CONTENT_TYPES !in z.entries || DOCUMENT !in z.entries || PACKAGE_RELS !in z.entries
    ensures FromReader(Ok(z)).Err?
  {
    FromReaderSucceeds(z);
  }

  /** A zip error other than "not found", or text that is not UTF-8, on any single-part name fails the read. */
  lemma BrokenPartFails(z: Archive, name: string)
    requires name in OPTIONAL_NAMES || name == CONTENT_TYPES || name == DOCUMENT || name == PACKAGE_RELS
    requires name in z.entries
    requires (z.entries[name].Broken? && z.entries[name].error != FileNotFound) || (z.entries[name].Stored? && z.entries[name].text.None?)
    ensures FromReader(Ok(z)).Err?
  {
    assert OptionRead(z, name).Err? && Read(z, name).Err?;
    FromReaderSucceeds(z);
  }

  /** What a successful read holds: each single part is the text under its name, None for a missing optional part. */
  lemma FromReaderContents(z: Archive)
    requires FromReader(Ok(z)).Ok?
    ensures var d := FromReader(Ok(z)).value;
      && Some(d.contentTypes) == TextUnder(z, CONTENT_TYPES) && Some(d.document) == TextUnder(z, DOCUMENT)
      && Some(d.rels) == TextUnder(z, PACKAGE_RELS)
      && d.app == TextUnder(z, APP) && d.core == TextUnder(z, CORE)
      && d.documentRels == TextUnder(z, DOCUMENT_RELS) && d.settingsRels == TextUnder(z, SETTINGS_RELS)
      && d.fontTable == TextUnder(z, FONT_TABLE) && d.styles == TextUnder(z, STYLES)
      && d.settings == TextUnder(z, SETTINGS) && d.webSettings == TextUnder(z, WEB_SETTINGS)
      && d.footnotes == TextUnder(z, FOOTNOTES) && d.endnotes == TextUnder(z, ENDNOTES)
      && d.comments == TextUnder(z, COMMENTS) && d.numbering == TextUnder(z, NUMBERING)
      && d.headers == ReadMultiple(z, "word/header") && d.footers == ReadMultiple(z, "word/footer")
      && d.themes == ReadMultiple(z, "word/theme/theme") && d.medias == ReadMultipleFiles(z, "word/media")
      && d.customXml == ReadMultipleFiles(z, "custom")
  {
    HeadContents(z);
    MiddleContents(z);
    TailContents(z);
  }

  lemma HeadContents(z: Archive)
    requires ReadHead(z).Ok?
    ensures var h := ReadHead(z).value;
      && h.app == TextUnder(z, APP) && Some(h.contentTypes) == TextUnder(z, CONTENT_TYPES) && h.core == TextUnder(z, CORE)
      && h.documentRels == TextUnder(z, DOCUMENT_RELS) && h.settingsRels == TextUnder(z, SETTINGS_RELS)
  {
  }

  lemma MiddleContents(z: Archive)
    requires ReadMiddle(z).Ok?
    ensures var m := ReadMiddle(z).value;
      && Some(m.document) == TextUnder(z, DOCUMENT) && m.fontTable == TextUnder(z, FONT_TABLE)
      && Some(m.rels) == TextUnder(z, PACKAGE_RELS) && m.styles == TextUnder(z, STYLES)
  {
  }

  lemma TailContents(z: Archive)
    requires ReadTail(z).Ok?
    ensures var t := ReadTail(z).value;
      && t.settings == TextUnder(z, SETTINGS) && t.webSettings == TextUnder(z, WEB_SETTINGS)
      && t.footnotes == TextUnder(z, FOOTNOTES) && t.endnotes == TextUnder(z, ENDNOTES)
      && t.comments == TextUnder(z, COMMENTS) && t.numbering == TextUnder(z, NUMBERING)
  {
  }
}
