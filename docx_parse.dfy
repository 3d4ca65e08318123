/**
 * Parsing the texts read out of a package into the `Docx` struct (src/docx.rs, `DocxFile::parse`). The XML
 * parsers of the single parts are not part of this model: they are the parameters gathered in `Parsers`, and each
 * of them may fail. What is modelled is what `parse` does around them: the order of its steps (the first failing
 * one decides the error), the keys of the part maps, which media and which relationships it keeps, the `ns0:`
 * rewrite of the web settings and the default styles.
 */
module PackageParser {
  import opened Wrappers
  import opened Errors
  import Strings
  import Package
  import PackageReader

  /** The parts parsed into a value this model does not look into. */
  datatype PartKind =
    | AppKind | ContentTypesKind | CoreKind | ThemeKind | FontTableKind | FootnotesKind | EndnotesKind
    | SettingsKind | WebSettingsKind | CommentsKind | NumberingKind | StylesKind

  /** The parts parsed into block content. */
  datatype BlockKind = DocumentKind | HeaderKind | FooterKind

  /**
   * The `from_str` of each part, `Relationships::from_str`, `media::get_media_type` and `Styles::default()`:
   * code outside this model, taken as parameters.
   */
  datatype Parsers = Parsers(
    part: (PartKind, string) -> DocxResult<Package.Part>,
    blocks: (BlockKind, string) -> DocxResult<Package.BlockPart>,
    rels: string -> DocxResult<seq<Package.Relationship>>,
    mediaType: string -> Option<Package.MediaType>,
    defaultStyles: Package.Part)

  // ---------------------------------------------------------------- the part maps

  const WORD_PREFIX := "word/"

  /** `name.replace("word/", "")`: the key a part is stored under. */
  function StripWord(name: string): string
  {
    Strings.ReplaceAll(name, WORD_PREFIX, [])
  }

  /** The headers', footers' or themes' loop: parse each text in order, the first failure returns, a later name overwrites. */
  function PartMap<T>(entries: seq<(string, string)>, parse: string -> DocxResult<T>): DocxResult<map<string, T>>
  {
    if entries == [] then Ok(map[])
    else
      var m :- PartMap(entries[..|entries| - 1], parse);
      var v :- parse(entries[|entries| - 1].1);
      Ok(m[StripWord(entries[|entries| - 1].0) := v])
  }

  function HeaderParser(p: Parsers): string -> DocxResult<Package.BlockPart>
  {
    text => p.blocks(HeaderKind, text)
  }

  function FooterParser(p: Parsers): string -> DocxResult<Package.BlockPart>
  {
    text => p.blocks(FooterKind, text)
  }

  function ThemeParser(p: Parsers): string -> DocxResult<Package.Part>
  {
    text => p.part(ThemeKind, text)
  }

  /** The media loop: an entry whose media type is not recognised is skipped; a later name overwrites. */
  function MediaMap(entries: seq<(string, Package.Bytes)>, mediaType: string -> Option<Package.MediaType>)
    : map<string, (Package.MediaType, Package.Bytes)>
  {
    if entries == [] then map[]
    else
      var m := MediaMap(entries[..|entries| - 1], mediaType);
      var last := entries[|entries| - 1];
      match mediaType(last.0)
      case None => m
      case Some(t) => m[StripWord(last.0) := (t, last.1)]
  }

  /** `custom_xml.iter().map(..).collect()`: names are kept as they are; a later name overwrites. */
  function CustomMap(entries: seq<(string, Package.Bytes)>): map<string, Package.Bytes>
  {
    if entries == [] then map[]
    else CustomMap(entries[..|entries| - 1])[entries[|entries| - 1].0 := entries[|entries| - 1].1]
  }

  /** The headers', footers' and themes' `for` loop. */
  method ParseParts<T>(entries: seq<(string, string)>, parse: string -> DocxResult<T>) returns (r: DocxResult<map<string, T>>)
    ensures r == PartMap(entries, parse)
  {
    var m: map<string, T> := map[];
    for i := 0 to |entries|
      invariant PartMap(entries[..i], parse).Ok? && PartMap(entries[..i], parse).value == m
    {
      assert entries[..i + 1][..i] == entries[..i];
      var v := parse(entries[i].1);
      if v.Err? {
        PartMapErrorSticks(entries, i + 1, parse);
        return Err(v.error);
      }
      m := m[StripWord(entries[i].0) := v.value];
    }
    assert entries[..|entries|] == entries;
    return Ok(m);
  }

  /** The media `for` loop. */
  method CollectMedia(entries: seq<(string, Package.Bytes)>, mediaType: string -> Option<Package.MediaType>)
    returns (media: map<string, (Package.MediaType, Package.Bytes)>)
    ensures media == MediaMap(entries, mediaType)
  {
    media := map[];
    for i := 0 to |entries|
      invariant media == MediaMap(entries[..i], mediaType)
    {
      assert entries[..i + 1][..i] == entries[..i];
      var mt := mediaType(entries[i].0);
      if mt.Some? {
        media := media[StripWord(entries[i].0) := (mt.value, entries[i].1)];
      }
    }
    assert entries[..|entries|] == entries;
  }

  // ---------------------------------------------------------------- the single parts

  /** `if let Some(content) = .. { Some(X::from_str(content)?) } else { None }`. */
  function OptionPart(p: Parsers, kind: PartKind, text: Option<string>): DocxResult<Option<Package.Part>>
  {
    if text.None? then Ok(None)
    else
      var part :- p.part(kind, text.value);
      Ok(Some(part))
  }

  function OptionRels(p: Parsers, text: Option<string>): DocxResult<Option<seq<Package.Relationship>>>
  {
    if text.None? then Ok(None)
    else
      var rs :- p.rels(text.value);
      Ok(Some(rs))
  }

  /** The relationships whose type is in `kept`, in their order. */
  function KeepTypes(rs: seq<Package.Relationship>, kept: set<Package.RelType>): seq<Package.Relationship>
  {
    if rs == [] then []
    else KeepTypes(rs[..|rs| - 1], kept) + (if rs[|rs| - 1].ty in kept then [rs[|rs| - 1]] else [])
  }

  /** The part relationship types `parse` keeps. */
  const DOCUMENT_REL_TYPES: set<Package.RelType> := {
    Package.Header, Package.Footer, Package.Theme, Package.FontTable, Package.Styles, Package.Footnotes,
    Package.Endnotes, Package.Settings, Package.WebSettings, Package.Comments, Package.Image,
    Package.Hyperlink, Package.Numbering}

  /** The package relationship types `parse` keeps. */
  const PACKAGE_REL_TYPES: set<Package.RelType> := {Package.CoreProperties, Package.ExtendedProperties, Package.OfficeDocument}

  function DocumentRelsOf(p: Parsers, text: Option<string>): DocxResult<Option<seq<Package.Relationship>>>
  {
    var rs :- OptionRels(p, text);
    Ok(if rs.Some? then Some(KeepTypes(rs.value, DOCUMENT_REL_TYPES)) else None)
  }

  function PackageRelsOf(p: Parsers, text: string): DocxResult<seq<Package.Relationship>>
  {
    var rs :- p.rels(text);
    Ok(KeepTypes(rs, PACKAGE_REL_TYPES))
  }

  const NS0 := "ns0:"
  const W := "w:"

  /** Web settings are parsed after every `ns0:` prefix is renamed `w:`. */
  function WebSettingsText(text: Option<string>): Option<string>
  {
    if text.None? then None else Some(Strings.ReplaceAll(text.value, NS0, W))
  }

  /** Missing styles parse as the default styles. */
  function StylesOf(p: Parsers, text: Option<string>): DocxResult<Package.Part>
  {
    if text.None? then Ok(p.defaultStyles) else p.part(StylesKind, text.value)
  }

  function ErrorOf<T>(r: DocxResult<T>): Option<DocxError>
  {
    if r.Err? then Some(r.error) else None
  }

  /** The error of the first step of `parse` that fails, in its order of evaluation; None when every step succeeds. */
  function FirstFailure(f: PackageReader.DocxFile, p: Parsers): Option<DocxError>
  {
    if OptionPart(p, AppKind, f.app).Err? then ErrorOf(OptionPart(p, AppKind, f.app))
    else if p.blocks(DocumentKind, f.document).Err? then ErrorOf(p.blocks(DocumentKind, f.document))
    else if PartMap(f.headers, HeaderParser(p)).Err? then ErrorOf(PartMap(f.headers, HeaderParser(p)))
    else if PartMap(f.footers, FooterParser(p)).Err? then ErrorOf(PartMap(f.footers, FooterParser(p)))
    else if PartMap(f.themes, ThemeParser(p)).Err? then ErrorOf(PartMap(f.themes, ThemeParser(p)))
    else if p.part(ContentTypesKind, f.contentTypes).Err? then ErrorOf(p.part(ContentTypesKind, f.contentTypes))
    else if OptionPart(p, CoreKind, f.core).Err? then ErrorOf(OptionPart(p, CoreKind, f.core))
    else if DocumentRelsOf(p, f.documentRels).Err? then ErrorOf(DocumentRelsOf(p, f.documentRels))
    else if OptionRels(p, f.settingsRels).Err? then ErrorOf(OptionRels(p, f.settingsRels))
    else if OptionPart(p, FontTableKind, f.fontTable).Err? then ErrorOf(OptionPart(p, FontTableKind, f.fontTable))
    else if OptionPart(p, FootnotesKind, f.footnotes).Err? then ErrorOf(OptionPart(p, FootnotesKind, f.footnotes))
    else if OptionPart(p, EndnotesKind, f.endnotes).Err? then ErrorOf(OptionPart(p, EndnotesKind, f.endnotes))
    else if OptionPart(p, SettingsKind, f.settings).Err? then ErrorOf(OptionPart(p, SettingsKind, f.settings))
    else if OptionPart(p, WebSettingsKind, WebSettingsText(f.webSettings)).Err?
    then ErrorOf(OptionPart(p, WebSettingsKind, WebSettingsText(f.webSettings)))
    else if OptionPart(p, CommentsKind, f.comments).Err? then ErrorOf(OptionPart(p, CommentsKind, f.comments))
    else if OptionPart(p, NumberingKind, f.numbering).Err? then ErrorOf(OptionPart(p, NumberingKind, f.numbering))
    else if PackageRelsOf(p, f.rels).Err? then ErrorOf(PackageRelsOf(p, f.rels))
    else if StylesOf(p, f.styles).Err? then ErrorOf(StylesOf(p, f.styles))
    else None
  }

  // ---------------------------------------------------------------- parse

  /** `DocxFile::parse`. */
  method Parse(f: PackageReader.DocxFile, p: Parsers) returns (r: DocxResult<Package.Docx>)
    ensures r.Err? <==> FirstFailure(f, p).Some?
    ensures r.Err? ==> r.error == FirstFailure(f, p).value
    ensures r.Ok? ==> fresh(r.value)
    ensures r.Ok? ==> var d := r.value;
      && d.app == OptionPart(p, AppKind, f.app).value
      && d.document == p.blocks(DocumentKind, f.document).value
      && d.headers == PartMap(f.headers, HeaderParser(p)).value
      && d.footers == PartMap(f.footers, FooterParser(p)).value
      && d.media == MediaMap(f.medias, p.mediaType)
      && d.themes == PartMap(f.themes, ThemeParser(p)).value
      && d.contentTypes == p.part(ContentTypesKind, f.contentTypes).value
      && d.core == OptionPart(p, CoreKind, f.core).value
      && d.documentRels == DocumentRelsOf(p, f.documentRels).value
      && d.settingsRels == OptionRels(p, f.settingsRels).value
      && d.fontTable == OptionPart(p, FontTableKind, f.fontTable).value
      && d.footnotes == OptionPart(p, FootnotesKind, f.footnotes).value
      && d.endnotes == OptionPart(p, EndnotesKind, f.endnotes).value
      && d.settings == OptionPart(p, SettingsKind, f.settings).value
      && d.webSettings == OptionPart(p, WebSettingsKind, WebSettingsText(f.webSettings)).value
      && d.comments == OptionPart(p, CommentsKind, f.comments).value
      && d.numbering == OptionPart(p, NumberingKind, f.numbering).value
      && d.rels == PackageRelsOf(p, f.rels).value
      && d.styles == StylesOf(p, f.styles).value
      && d.customXml == CustomMap(f.customXml)
  {
    var app := OptionPart(p, AppKind, f.app);
    if app.Err? { return Err(app.error); }
    var document := p.blocks(DocumentKind, f.document);
    if document.Err? { return Err(document.error); }
    var headers := ParseParts(f.headers, HeaderParser(p));
    if headers.Err? { return Err(headers.error); }
    var footers := ParseParts(f.footers, FooterParser(p));
    if footers.Err? { return Err(footers.error); }
    var media := CollectMedia(f.medias, p.mediaType);
    var themes := ParseParts(f.themes, ThemeParser(p));
    if themes.Err? { return Err(themes.error); }
    var contentTypes := p.part(ContentTypesKind, f.contentTypes);
    if contentTypes.Err? { return Err(contentTypes.error); }
    var core := OptionPart(p, CoreKind, f.core);
    if core.Err? { return Err(core.error); }
    var documentRels := DocumentRelsOf(p, f.documentRels);
    if documentRels.Err? { return Err(documentRels.error); }
    var settingsRels := OptionRels(p, f.settingsRels);
    if settingsRels.Err? { return Err(settingsRels.error); }
    var fontTable := OptionPart(p, FontTableKind, f.fontTable);
    if fontTable.Err? { return Err(fontTable.error); }
    var footnotes := OptionPart(p, FootnotesKind, f.footnotes);
    if footnotes.Err? { return Err(footnotes.error); }
    var endnotes := OptionPart(p, EndnotesKind, f.endnotes);
    if endnotes.Err? { return Err(endnotes.error); }
    var settings := OptionPart(p, SettingsKind, f.settings);
    if settings.Err? { return Err(settings.error); }
    var webSettings := OptionPart(p, WebSettingsKind, WebSettingsText(f.webSettings));
    if webSettings.Err? { return Err(webSettings.error); }
    var comments := OptionPart(p, CommentsKind, f.comments);
    if comments.Err? { return Err(comments.error); }
    var numbering := OptionPart(p, NumberingKind, f.numbering);
    if numbering.Err? { return Err(numbering.error); }
    var rels := PackageRelsOf(p, f.rels);
    if rels.Err? { return Err(rels.error); }
    var styles := StylesOf(p, f.styles);
    if styles.Err? { return Err(styles.error); }
    var docx := new Package.Docx(app.value, core.value, contentTypes.value, document.value, fontTable.value,
                                 styles.value, rels.value, documentRels.value, settingsRels.value, headers.value,
                                 footers.value, themes.value, media, footnotes.value, endnotes.value, settings.value,
                                 webSettings.value, comments.value, numbering.value, CustomMap(f.customXml));
    return Ok(docx);
  }

  // ---------------------------------------------------------------- properties of the part maps

  /** Once a prefix of the entries fails, the whole map fails with the same error. */
  lemma {:induction false} PartMapErrorSticks<T>(entries: seq<(string, string)>, i: nat, parse: string -> DocxResult<T>)
    requires i <= |entries| && PartMap(entries[..i], parse).Err?
    ensures PartMap(entries, parse) == PartMap(entries[..i], parse)
    decreases |entries|
  {
    if i < |entries| {
      var init := entries[..|entries| - 1];
      assert init[..i] == entries[..i];
      PartMapErrorSticks(init, i, parse);
    } else {
      assert entries[..i] == entries;
    }
  }

  /** A part map is built exactly when every text in it parses. */
  lemma {:induction false} PartMapSucceeds<T>(entries: seq<(string, string)>, parse: string -> DocxResult<T>)
    ensures PartMap(entries, parse).Ok? <==> forall i :: 0 <= i < |entries| ==> parse(entries[i].1).Ok?
    decreases |entries|
  {
    if entries != [] {
      var init := entries[..|entries| - 1];
      PartMapSucceeds(init, parse);
      assert forall i :: 0 <= i < |init| ==> init[i] == entries[i];
    }
  }

  /** A failing map fails with the error of its first text that does not parse. */
  lemma {:induction false} PartMapFirstError<T>(entries: seq<(string, string)>, parse: string -> DocxResult<T>)
    requires PartMap(entries, parse).Err?
    ensures exists j :: 0 <= j < |entries| && parse(entries[j].1) == Err(PartMap(entries, parse).error)
                        && (forall i :: 0 <= i < j ==> parse(entries[i].1).Ok?)
    decreases |entries|
  {
    var init := entries[..|entries| - 1];
    var last := |entries| - 1;
    if PartMap(init, parse).Err? {
      PartMapFirstError(init, parse);
      var j :| 0 <= j < |init| && parse(init[j].1) == Err(PartMap(init, parse).error)
        && forall i :: 0 <= i < j ==> parse(init[i].1).Ok?;
      assert parse(entries[j].1) == Err(PartMap(entries, parse).error);
      assert forall i :: 0 <= i < j ==> init[i] == entries[i];
    } else {
      PartMapSucceeds(init, parse);
      assert forall i :: 0 <= i < last ==> init[i] == entries[i];
      assert parse(entries[last].1) == Err(PartMap(entries, parse).error);
    }
  }

  /** The keys of a built map are exactly the names of the entries with `word/` removed. */
  lemma {:induction false} PartMapKeys<T>(entries: seq<(string, string)>, parse: string -> DocxResult<T>, k: string)
    requires PartMap(entries, parse).Ok?
    ensures k in PartMap(entries, parse).value <==> exists i :: 0 <= i < |entries| && StripWord(entries[i].0) == k
    decreases |entries|
  {
    if entries != [] {
      var init := entries[..|entries| - 1];
      PartMapKeys(init, parse, k);
      if exists i :: 0 <= i < |init| && StripWord(init[i].0) == k {
        var i :| 0 <= i < |init| && StripWord(init[i].0) == k;
        assert StripWord(entries[i].0) == k;
      }
      if exists i :: 0 <= i < |entries| && StripWord(entries[i].0) == k {
        var i :| 0 <= i < |entries| && StripWord(entries[i].0) == k;
        if i < |init| {
          assert StripWord(init[i].0) == k;
        }
      }
    }
  }

  /** Under each key is the part parsed from the last entry with that key. */
  lemma {:induction false} PartMapLastWins<T>(entries: seq<(string, string)>, parse: string -> DocxResult<T>, i: nat)
    requires PartMap(entries, parse).Ok? && i < |entries|
    requires forall j :: i < j < |entries| ==> StripWord(entries[j].0) != StripWord(entries[i].0)
    ensures StripWord(entries[i].0) in PartMap(entries, parse).value && parse(entries[i].1).Ok?
    ensures PartMap(entries, parse).value[StripWord(entries[i].0)] == parse(entries[i].1).value
    decreases |entries|
  {
    var init := entries[..|entries| - 1];
    if i < |init| {
      assert init[i] == entries[i];
      assert forall j :: i < j < |init| ==> init[j] == entries[j];
      PartMapLastWins(init, parse, i);
    }
  }

  /** A media entry is kept, under its name without `word/`, exactly when its media type is recognised. */
  lemma {:induction false} MediaMapKeys(entries: seq<(string, Package.Bytes)>, mediaType: string -> Option<Package.MediaType>, k: string)
    ensures k in MediaMap(entries, mediaType) <==>
      exists i :: 0 <= i < |entries| && mediaType(entries[i].0).Some? && StripWord(entries[i].0) == k
    decreases |entries|
  {
    if entries != [] {
      var init := entries[..|entries| - 1];
      MediaMapKeys(init, mediaType, k);
      if exists i :: 0 <= i < |init| && mediaType(init[i].0).Some? && StripWord(init[i].0) == k {
        var i :| 0 <= i < |init| && mediaType(init[i].0).Some? && StripWord(init[i].0) == k;
        assert entries[i] == init[i];
      }
      if exists i :: 0 <= i < |entries| && mediaType(entries[i].0).Some? && StripWord(entries[i].0) == k {
        var i :| 0 <= i < |entries| && mediaType(entries[i].0).Some? && StripWord(entries[i].0) == k;
        if i < |init| {
          assert init[i] == entries[i];
        }
      }
    }
  }

  /** A kept media entry holds its recognised type and its bytes. */
  lemma {:induction false} MediaMapValues(entries: seq<(string, Package.Bytes)>, mediaType: string -> Option<Package.MediaType>, k: string)
    requires k in MediaMap(entries, mediaType)
    ensures exists i :: 0 <= i < |entries| && StripWord(entries[i].0) == k
                        && mediaType(entries[i].0) == Some(MediaMap(entries, mediaType)[k].0)
                        && entries[i].1 == MediaMap(entries, mediaType)[k].1
    decreases |entries|
  {
    var init := entries[..|entries| - 1];
    var last := entries[|entries| - 1];
    if mediaType(last.0).Some? && StripWord(last.0) == k {
      assert StripWord(entries[|entries| - 1].0) == k;
    } else {
      MediaMapValues(init, mediaType, k);
      var i :| 0 <= i < |init| && StripWord(init[i].0) == k
        && mediaType(init[i].0) == Some(MediaMap(init, mediaType)[k].0) && init[i].1 == MediaMap(init, mediaType)[k].1;
      assert entries[i] == init[i];
    }
  }

  /** Custom XML is stored under its full name. */
  lemma {:induction false} CustomMapKeys(entries: seq<(string, Package.Bytes)>, k: string)
    ensures k in CustomMap(entries) <==> exists i :: 0 <= i < |entries| && entries[i].0 == k
    decreases |entries|
  {
    if entries != [] {
      var init := entries[..|entries| - 1];
      CustomMapKeys(init, k);
      if exists i :: 0 <= i < |init| && init[i].0 == k {
        var i :| 0 <= i < |init| && init[i].0 == k;
        assert entries[i] == init[i];
      }
      if exists i :: 0 <= i < |entries| && entries[i].0 == k {
        var i :| 0 <= i < |entries| && entries[i].0 == k;
        if i < |init| {
          assert init[i] == entries[i];
        }
      }
    }
  }

  /** Reading back what `write` stored under `word/<key>` gives the key again, when the key holds no `word/` itself. */
  lemma WordEntryRoundTrip(k: string)
    requires !Strings.Contains(k, WORD_PREFIX)
    ensures StripWord(Package.EntryName(Package.WordEntry(k))) == k
  {
    Strings.StripPrefix(WORD_PREFIX, k);
  }

  /** A name without `word/` in it is its own key. */
  lemma StripWordAbsent(name: string)
    requires !Strings.Contains(name, WORD_PREFIX)
    ensures StripWord(name) == name
  {
    Strings.ReplaceAbsent(name, WORD_PREFIX, []);
  }

  // ---------------------------------------------------------------- properties of the relationship filters

  /** A relationship is kept exactly when it was parsed and its type is in `kept`. */
  lemma {:induction false} KeepTypesMember(rs: seq<Package.Relationship>, kept: set<Package.RelType>, r: Package.Relationship)
    ensures r in KeepTypes(rs, kept) <==> r in rs && r.ty in kept
    decreases |rs|
  {
    if rs != [] {
      var init := rs[..|rs| - 1];
      KeepTypesMember(init, kept, r);
      assert rs == init + [rs[|rs| - 1]];
    }
  }

  /** The filter works piece by piece, so it keeps the relative order of what it keeps. */
  lemma {:induction false} KeepTypesAppend(a: seq<Package.Relationship>, b: seq<Package.Relationship>, kept: set<Package.RelType>)
    ensures KeepTypes(a + b, kept) == KeepTypes(a, kept) + KeepTypes(b, kept)
    decreases |b|
  {
    if b == [] {
      assert a + b == a;
    } else {
      var init := b[..|b| - 1];
      KeepTypesAppend(a, init, kept);
      assert (a + b)[..|a + b| - 1] == a + init;
    }
  }

  /** A list whose every type is kept passes through unchanged. */
  lemma {:induction false} KeepTypesAllKept(rs: seq<Package.Relationship>, kept: set<Package.RelType>)
    requires forall r :: r in rs ==> r.ty in kept
    ensures KeepTypes(rs, kept) == rs
    decreases |rs|
  {
    if rs != [] {
      var init := rs[..|rs| - 1];
      assert forall r :: r in init ==> r in rs;
      KeepTypesAllKept(init, kept);
      assert rs == init + [rs[|rs| - 1]];
    }
  }

  /** Filtering twice keeps what filtering once keeps. */
  lemma KeepTypesIdempotent(rs: seq<Package.Relationship>, kept: set<Package.RelType>)
    ensures KeepTypes(KeepTypes(rs, kept), kept) == KeepTypes(rs, kept)
  {
    forall r | r in KeepTypes(rs, kept)
      ensures r.ty in kept
    {
      KeepTypesMember(rs, kept, r);
    }
    KeepTypesAllKept(KeepTypes(rs, kept), kept);
  }

  /** Every package relationship `write` registers survives `parse`'s filter. */
  lemma PackageRelsKept(hasApp: bool, hasCore: bool)
    ensures KeepTypes(Package.PackageRels(hasApp, hasCore), PACKAGE_REL_TYPES) == Package.PackageRels(hasApp, hasCore)
  {
    KeepTypesAllKept(Package.PackageRels(hasApp, hasCore), PACKAGE_REL_TYPES);
  }

  /**
   * Every part relationship `write` registers survives `parse`'s filter, provided each media file is registered
   * with a kept type (the crate types them as images).
   */
  lemma DocumentRelsKept(present: set<Package.OptionalPart>, headerOrder: seq<string>, footerOrder: seq<string>,
                         themeOrder: seq<string>, mediaOrder: seq<string>,
                         media: map<string, (Package.MediaType, Package.Bytes)>, relType: Package.MediaType -> Package.RelType)
    requires forall k :: k in mediaOrder ==> k in media
    requires forall k :: k in mediaOrder ==> relType(media[k].0) in DOCUMENT_REL_TYPES
    ensures var rs := Package.DocumentRels(present, headerOrder, footerOrder, themeOrder, mediaOrder, media, relType);
      KeepTypes(rs, DOCUMENT_REL_TYPES) == rs
  {
    var opt := Package.OptionalRels(Package.OPTIONAL_PARTS, present);
    var hs, fs, ts := Package.KeyRels(Package.Header, headerOrder), Package.KeyRels(Package.Header, footerOrder),
                      Package.KeyRels(Package.Theme, themeOrder);
    var ms := Package.MediaRels(mediaOrder, media, relType);
    forall r | r in opt
      ensures r.ty in DOCUMENT_REL_TYPES
    {
      Package.OptionalRelsMember(Package.OPTIONAL_PARTS, present, r);
    }
    forall r | r in ms
      ensures r.ty in DOCUMENT_REL_TYPES
    {
      var i :| 0 <= i < |ms| && ms[i] == r;
      assert mediaOrder[i] in mediaOrder;
    }
    var rs := Package.DocumentRels(present, headerOrder, footerOrder, themeOrder, mediaOrder, media, relType);
    assert rs == [Package.Relationship(Package.Styles, "styles.xml")] + opt + hs + fs + ts + ms;
    KeepTypesAllKept(rs, DOCUMENT_REL_TYPES);
  }

  // ---------------------------------------------------------------- web settings and styles

  /** Web settings without an `ns0:` prefix reach their parser unchanged. */
  lemma WebSettingsUnchanged(text: string)
    requires !Strings.Contains(text, NS0)
    ensures WebSettingsText(Some(text)) == Some(text)
  {
    Strings.ReplaceAbsent(text, NS0, W);
  }

  /** A leading `ns0:` is renamed `w:`. */
  lemma WebSettingsRenamed(rest: string)
    requires !Strings.Contains(rest, NS0)
    ensures WebSettingsText(Some(NS0 + rest)) == Some(W + rest)
  {
    Strings.ReplaceLeading(NS0, rest, W);
  }

  /**
   * A package holding only the required parts fails only where one of those fails to parse: every missing
   * optional part is None, and missing styles become the default styles.
   */
  lemma OnlyRequiredParts(f: PackageReader.DocxFile, p: Parsers)
    requires f.app.None? && f.core.None? && f.documentRels.None? && f.settingsRels.None? && f.fontTable.None?
    requires f.footnotes.None? && f.endnotes.None? && f.settings.None? && f.webSettings.None?
    requires f.comments.None? && f.numbering.None? && f.styles.None?
    requires f.headers == [] && f.footers == [] && f.themes == []
    ensures FirstFailure(f, p) ==
      if p.blocks(DocumentKind, f.document).Err? then Some(p.blocks(DocumentKind, f.document).error)
      else if p.part(ContentTypesKind, f.contentTypes).Err? then Some(p.part(ContentTypesKind, f.contentTypes).error)
      else if p.rels(f.rels).Err? then Some(p.rels(f.rels).error)
      else None
    ensures StylesOf(p, f.styles) == Ok(p.defaultStyles)
  {
  }
}
