# docx-rust: drawings, hyperlinks and package bookkeeping, in Dafny

This project models four parts of the `docx-rust` crate, which reads and writes WordprocessingML packages (`.docx`).
It proves what each part promises.

- **Drawings** (`src/document/drawing.rs`).
  - A `w:drawing` has two optional slots, `anchor` and `inline`.
  - The compatibility sanitizer moves a floating `wp:anchor` into a plain `wp:inline`.
  - `Anchor::to_writer` is the hand-written `wp:anchor` encoder of section 20.4 of ECMA-376 Part 1. It is modelled as the stream of calls it makes on an XML writer.
- **DrawingML fix templates** (the three files under `docs_drawingml/reference_materials/rust_code_templates/`).
  - The OOXML boolean encoding (`1`/`0`).
  - The "exactly one of `wp:align` and `wp:posOffset`" validator for `wp:positionH`/`wp:positionV`.
  - Safe defaults, and the string encoder with its emergency fallbacks.
  - The warning-producing safe mode: sanitize, validate, save with options.
  - These templates do not compile against the crate, so each is modelled on its own small datatypes.
- **Multi-run hyperlinks** (`src/document/hyperlink.rs`).
  - A hyperlink holds an ordered sequence of runs and an optional bidirectional embedding.
  - Its builders, its text, and its run-by-run text replacement are modelled.
- **Package bookkeeping** (`src/docx.rs`). The `Docx` struct is a class whose methods update its fields.
  - The drawing sanitizer walks the body, then the headers, then the footers.
  - `write` registers relationships and writes the part list.
  - `DocxFile::from_reader` selects zip entries.
  - `DocxFile::parse` steps through the parts, filters relationships and fills the part maps.

Code outside the model is passed in as parameters:
- the XML parsers of the single parts;
- `media::get_media_type` and `media::get_media_type_relation_type`;
- the save step;
- `Styles::default()`.

The zip archive is a value: its list of entry names and a map from name to content.
`HashMap` iteration order is not fixed, so every loop over one takes an explicit enumeration of the keys (`Seqs.IsEnumeration`). Properties that must not depend on that order are stated over the keys.

Files and modules:
- `wrappers.dfy`: `Wrappers` (Option, Result) and `Errors` (`DocxError`, from `src/error.rs`).
- `seqs.dfy`, `strings.dfy`: generic helpers, including `str::replace`.
- `decimal.dfy`: integer `to_string`.
- `boolean_serialization.dfy`, `required_elements.dfy`, `safe_mode.dfy`: the templates.
- `drawing.dfy`, `runs.dfy`, `hyperlink.dfy`: drawings, runs and hyperlinks.
- `docx_tree.dfy`: the document tree the sanitizer walks.
- `docx_package.dfy`: the `Docx` class, sanitizing and writing.
- `docx_file.dfy`: reading the archive.
- `docx_parse.dfy`: parsing.

## Model

| member | source | states |
|---|---|---|
| Drawing.AnchorToSimpleInline | src/document/drawing.rs:33-58 | The conversion never fails. The inline keeps the anchor's four distances, extent, docPr and graphic. Every positioning, z-order and locking field is None, and the wrap is dropped. |
| Drawing.SimpleInlineIsUnique | src/document/drawing.rs:33-58 | Any inline that keeps the anchor's content and has no positioning is exactly the converted inline. |
| Drawing.Sanitized | src/document/drawing.rs:23-30 | After sanitizing, `anchor` is None. An anchor present before becomes the inline, overwriting any previous inline. With no anchor, the drawing is unchanged. |
| Drawing.SanitizeForCompatibility | src/document/drawing.rs:23-30 | The in-place sanitizer always returns `Ok(())` and leaves the drawing equal to `Sanitized` of the old one. |
| Drawing.SanitizeIdempotent | src/document/drawing.rs:25-29 | A second sanitize changes nothing. The inline after sanitizing is the converted anchor. |
| Drawing.AnchorToWriter | src/document/drawing.rs:110-173 | The writer receives the `wp:anchor` start, the present attributes, the end of the start tag, the present children, and the end tag, appended after whatever it held before. |
| Drawing.WriteAttributes | src/document/drawing.rs:114-146 | Appends exactly the anchor's attribute tokens. |
| Drawing.WriteNumericAttributes | src/document/drawing.rs:114-132 | Appends distT, distB, distL, distR, simplePos and relativeHeight, in that order, each only when Some, as decimal text. |
| Drawing.WriteBooleanAttributes | src/document/drawing.rs:134-146 | Continues with behindDoc, locked, layoutInCell and allowOverlap, each only when Some. |
| Drawing.WriteChildren | src/document/drawing.rs:150-169 | Appends simplePos, positionH, positionV, extent and wrap when present, then docPr always, then graphic when present. |
| Drawing.AttributesInSchemaOrder | src/document/drawing.rs:114-146 | Every written attribute is an attribute token, and the attributes come out in strictly increasing schema rank. |
| Drawing.AttributeWritten | src/document/drawing.rs:115-146 | An attribute with a given name and value is written if and only if the anchor's field is Some with that encoded value. |
| Drawing.AttributeValueReadsBack | src/document/drawing.rs:115-146 | Numeric values parse back to the field. Boolean values are `1` or `0` and read back as the field. No value is `true` or `false`. |
| Drawing.ChildrenInSchemaOrder | src/document/drawing.rs:150-169 | Children come out in strictly increasing schema rank. |
| Drawing.ChildWritten | src/document/drawing.rs:150-169 | A child is written if and only if the anchor has it. |
| Drawing.DocPrAlwaysWritten | src/document/drawing.rs:166 | `docPr` is written for every anchor. |
| Decimal.IntRoundTrip | src/document/drawing.rs:115-132 | The decimal text written for an integer attribute parses back to the same integer. |
| BooleanSerialization.SerializeBoolOoxml | docs_drawingml/reference_materials/rust_code_templates/boolean_serialization.rs:6-8 | The result is `1` or `0`, never `true` or `false`. |
| BooleanSerialization.SerializeBoolOoxmlExplicit | docs_drawingml/reference_materials/rust_code_templates/boolean_serialization.rs:11-16 | The `match` version agrees with `serialize_bool_ooxml` on every input. |
| BooleanSerialization.BoolRoundTrip | docs_drawingml/reference_materials/rust_code_templates/boolean_serialization.rs:45-51 | The encoding is one character, reads back as the encoded value, and differs for `true` and `false`. |
| BooleanSerialization.SerializeBoolAttr | docs_drawingml/reference_materials/rust_code_templates/boolean_serialization.rs:86-90 | `serialize_bool_attr!(n, v)` is `n`, then `="`, then one character that reads back as `v`, then `"`. |
| RequiredElements.ValidatePositionH | docs_drawingml/reference_materials/rust_code_templates/required_elements_structs.rs:38-48 | Succeeds if and only if exactly one of align and posOffset is set. Neither set gives `MissingRequiredElement`; both set gives `InvalidPositioning`, each with the template's message. |
| RequiredElements.ValidatePositionV | docs_drawingml/reference_materials/rust_code_templates/required_elements_structs.rs:69-79 | The same exactly-one rule, error variants and messages for the vertical position. |
| RequiredElements.SafeDefaultPositionH | docs_drawingml/reference_materials/rust_code_templates/required_elements_structs.rs:51-57 | Relative to `column`, aligned `center`, and it validates. |
| RequiredElements.SafeDefaultPositionV | docs_drawingml/reference_materials/rust_code_templates/required_elements_structs.rs:81-87 | Relative to `paragraph`, offset 0, and it validates. |
| RequiredElements.ValidateAnchor | docs_drawingml/reference_materials/rust_code_templates/required_elements_structs.rs:218-229 | Succeeds if and only if both positions validate. An error in H is reported even when V is also invalid. |
| RequiredElements.SafeDefaultAnchor | docs_drawingml/reference_materials/rust_code_templates/required_elements_structs.rs:233-266 | The anchor validates and keeps the given extent, docPr and graphic. Every default the template writes is stated: distances, flags, relativeHeight, effect extent, frame locks and size relations. |
| RequiredElements.PositionHXmlIsValid | docs_drawingml/reference_materials/rust_code_templates/required_elements_structs.rs:431-444 | The encoder always writes a position that validates. `align` wins over `posOffset`. A valid position is written as itself. Neither set is written as the safe default's `center`. |
| RequiredElements.PositionVXmlIsValid | docs_drawingml/reference_materials/rust_code_templates/required_elements_structs.rs:446-460 | The same for V, whose fallback is `posOffset` 0. |
| RequiredElements.StartTagBooleans | docs_drawingml/reference_materials/rust_code_templates/boolean_serialization.rs:29-34 | The anchor start tag contains `simplePos`, `behindDoc`, `locked`, `layoutInCell` and `allowOverlap`, each as `name="0"` or `name="1"` per its field. |
| RequiredElements.StartTagHasNoWords | docs_drawingml/reference_materials/rust_code_templates/boolean_serialization.rs:74-76 | The anchor start tag contains neither `true` nor `false`. |
| RequiredElements.AnchorToXml | docs_drawingml/reference_materials/rust_code_templates/required_elements_structs.rs:365-368 | `to_xml` fails if and only if `validate` fails, with the same error. |
| RequiredElements.AnchorXmlContents | docs_drawingml/reference_materials/rust_code_templates/required_elements_structs.rs:369-426 | A successful encoding begins with the anchor start tag and contains the encoded positionH and positionV. |
| SafeMode.ComplexIsNotPlain | docs_drawingml/reference_materials/rust_code_templates/safe_mode_structs.rs:47-53 | An anchor is complex exactly when it is not plain. Plain means: no H align, no V align, no effect extent, no size relations, not behind the text, and simple positioning. |
| SafeMode.AnchorToSimpleInline | docs_drawingml/reference_materials/rust_code_templates/safe_mode_structs.rs:57-70 | Never fails. Copies extent, docPr and graphic and sets all four distances to 0, unlike the crate's own converter. |
| SafeMode.SanitizeForCompatibility | docs_drawingml/reference_materials/rust_code_templates/safe_mode_structs.rs:16-38 | Updates the drawing to its sanitized form and always returns Ok with its warnings. |
| SafeMode.DrawingSanitizeFacts | docs_drawingml/reference_materials/rust_code_templates/safe_mode_structs.rs:19-37 | An inline is unchanged and quiet. A complex anchor becomes an inline with exactly one `ComplexAnchorConverted` warning. A plain anchor is unchanged and quiet. A drawing warns exactly when it changes, and a second pass is quiet and changes nothing. |
| SafeMode.ValidationMatchesPositionH | docs_drawingml/reference_materials/rust_code_templates/safe_mode_structs.rs:108-118 | The validator reports a drawing exactly when it is an anchor whose positionH `validate` rejects as missing. V and positions with both children are not checked. |
| SafeMode.MissingPositionSurvivesSanitizing | docs_drawingml/reference_materials/rust_code_templates/safe_mode_structs.rs:47-53 | A plain anchor with neither H align nor H offset is kept by the sanitizer without a warning, and the validator still reports it. |
| SafeMode.SanitizedParagraphs | docs_drawingml/reference_materials/rust_code_templates/safe_mode_structs.rs:88-95 | Each paragraph keeps its place and each of its runs is sanitized in place. |
| SafeMode.SanitizeParagraph | docs_drawingml/reference_materials/rust_code_templates/safe_mode_structs.rs:89-94 | The run loop sanitizes every run's drawing and collects the per-drawing warnings in run order. |
| SafeMode.ValidateParagraph | docs_drawingml/reference_materials/rust_code_templates/safe_mode_structs.rs:107-120 | The run loop collects the validation findings of a paragraph in run order. |
| SafeMode.Docx.SanitizeAllDrawings | docs_drawingml/reference_materials/rust_code_templates/safe_mode_structs.rs:84-100 | The body paragraphs become their sanitized form. The result is Ok with the per-drawing warnings concatenated in body order. |
| SafeMode.Docx.ValidateDrawingCompatibility | docs_drawingml/reference_materials/rust_code_templates/safe_mode_structs.rs:103-124 | Changes nothing and returns the findings of every body drawing in order. |
| SafeMode.Docx.SaveWithOptions | docs_drawingml/reference_materials/rust_code_templates/safe_mode_structs.rs:155-172 | Works on a copy, so the document is unchanged. Validation findings come before sanitizer warnings. `save` gets the copy, sanitized when asked, and its error is propagated. |
| SafeMode.Docx.SaveCompatible | docs_drawingml/reference_materials/rust_code_templates/safe_mode_structs.rs:76-81 | Saves a sanitized copy and returns the sanitizer's warnings, or the save error. |
| SafeMode.RunsWarningsMeanChange | docs_drawingml/reference_materials/rust_code_templates/safe_mode_structs.rs:88-95 | Every warning from a run sequence is a conversion. No warnings if and only if the runs are unchanged. |
| SafeMode.BodyWarningsAreConversions | docs_drawingml/reference_materials/rust_code_templates/safe_mode_structs.rs:84-100 | Every warning of `sanitize_all_drawings` reports a conversion. |
| SafeMode.BodyWarningsMeanChange | docs_drawingml/reference_materials/rust_code_templates/safe_mode_structs.rs:84-100 | The body gets no warnings if and only if sanitizing leaves it unchanged. |
| SafeMode.SecondPassIsQuiet | docs_drawingml/reference_materials/rust_code_templates/safe_mode_structs.rs:19-37 | Sanitizing the body twice equals sanitizing it once, and the second pass produces no warnings. |
| Runs.ItemTextsAppend | src/document/hyperlink.rs:119-127 | The text leaves of two concatenated item sequences are the leaves of each, in order. |
| Runs.PushTextAppends | src/document/hyperlink.rs:66-69 | Pushing a text leaf onto a run adds exactly that leaf at the end, so the run's text gains it as a suffix. |
| Runs.ReplaceOnePair | src/document/hyperlink.rs:103-110 | A one-pair dictionary is a single `str::replace`. |
| Runs.ReplaceItems | src/document/hyperlink.rs:96-98 | Replacement keeps the number of run items. |
| Runs.ReplaceItemsTexts | src/document/hyperlink.rs:96-98 | The replaced run has as many text leaves as before, and each is the old leaf with the dictionary applied on its own. |
| Runs.ReplaceTextLeaves | src/document/hyperlink.rs:96-98 | The same, stated for a whole run. |
| Runs.ReplaceItemsAbsent | src/document/hyperlink.rs:107-109 | A run none of whose leaves contains a non-empty pattern is unchanged by replacing it. |
| Hyperlink.FirstRun | src/document/hyperlink.rs:72-74 | `first_run` is None exactly when there are no runs, and otherwise is the first run. |
| Hyperlink.RunsTextsJoin | src/document/hyperlink.rs:112-127 | Joining the text leaves of all runs is the concatenation of each run's text, in order. |
| Hyperlink.TextInOrder | src/document/hyperlink.rs:112-127 | `text()` is the runs' texts in order, followed by the bidi embedding's text. |
| Hyperlink.DefaultIsEmpty | tests/hyperlink_simple_test.rs:94-97 | A default hyperlink has empty text and no first run. |
| Hyperlink.PushRunAppends | src/document/hyperlink.rs:60-63 | `push_run` appends the run at the end and grows the count by one. `id`, `anchor` and bidi are unchanged. The text gains the run's text before the bidi text. The first run changes only when there were none. |
| Hyperlink.AddTextAppends | src/document/hyperlink.rs:66-69 | `add_text(t)` appends one run, and the text is the old runs' text followed by `t`. Without bidi, it is the old text followed by `t`. |
| Hyperlink.FromSingleRunHoldsRun | src/document/hyperlink.rs:82-87 | The content is exactly `[r]`, the first run is `r`, `id` and `anchor` are None, and the text is the run's text. |
| Hyperlink.ReplaceRuns | src/document/hyperlink.rs:96-98 | Replacement keeps the run count and replaces each run on its own. |
| Hyperlink.ReplaceTextSimple | src/document/hyperlink.rs:103-110 | The in-place loop leaves the hyperlink equal to every run replaced with the one-pair dictionary. |
| Hyperlink.ReplaceRunsLeaves | src/document/hyperlink.rs:96-98 | Over all runs, the text leaves keep their number, and each is replaced independently. |
| Hyperlink.ReplaceSimpleLeaves | src/document/hyperlink.rs:103-110 | `replace_text_simple` replaces each run leaf independently and leaves the bidi leaves alone. |
| Hyperlink.ReplaceSimpleNoLeafMatch | src/document/hyperlink.rs:103-110 | When no leaf contains a non-empty pattern, `replace_text_simple` changes nothing. |
| Hyperlink.CrossRunMatchIsMissed | src/document/hyperlink.rs:103-110 | A pattern split across two runs is not matched, even though the full text contains it. |
| Hyperlink.ReplaceSingleLeaf | src/document/hyperlink.rs:66-69 | Replacing in a one-leaf run replaces that leaf. |
| Hyperlink.ReplaceTwoLeaves | src/document/hyperlink.rs:171-178 | Replacing in a hyperlink built from two `add_text` calls replaces each of the two runs. |
| Hyperlink.TwoLeafText | src/document/hyperlink.rs:171-178 | Two `add_text` calls give the two texts joined. |
| Hyperlink.ReplaceSimpleEachRun | src/document/hyperlink.rs:181-189 | A pattern that starts each of two runs is replaced in both. |
| Hyperlink.ReplaceSimpleOldText | src/document/hyperlink.rs:181-189 | The crate's test: "Old text in first run" and "Old text in second run" become "New text in first runNew text in second run". |
| Hyperlink.ReplaceOnePairLeading | src/document/hyperlink.rs:103-110 | A leading occurrence of a pattern the rest does not contain is replaced once. |
| Hyperlink.FirstFailure | src/document/hyperlink.rs:96-98 | The index of the first run whose replacement call fails, or the run count: every earlier call succeeds and that one fails. |
| Hyperlink.ReplaceRunsUpTo | src/document/hyperlink.rs:96-98 | Runs before the index are what their replacement call leaves, and later runs are unchanged. |
| Hyperlink.ReplaceText | src/document/hyperlink.rs:90-100 | `replace_text` stops at the first failing run with its error. Earlier runs are replaced, the failing run is left as its own call left it, and later runs are unchanged. It is Ok exactly when every run succeeds. |
| Hyperlink.FirstFailureAt | src/document/hyperlink.rs:96-98 | If runs before `i` succeed and run `i` fails, the first failure is at `i`. |
| Hyperlink.ReplaceTextInfallible | src/document/hyperlink.rs:90-100 | With a dictionary, `replace_text` is Ok and replaces every run. |
| Hyperlink.ReplaceDictionaryEachRun | src/document/hyperlink.rs:192-201 | A two-pair dictionary whose keys start the two runs replaces both. |
| Hyperlink.ReplaceDictionaryHelloGoodbye | src/document/hyperlink.rs:192-201 | The crate's test: `[("Hello","Hi"),("Goodbye","Bye")]` turns "Hello World" and "Goodbye Moon" into "Hi WorldBye Moon". |
| Hyperlink.ReplaceOnePairAbsent | src/document/hyperlink.rs:107-109 | A leaf without a non-empty pattern is unchanged. |
| DocumentTree.SanitizedItems | src/docx.rs:97-101 | Every run item keeps its place, and each drawing is sanitized. |
| DocumentTree.SanitizedInlines | src/docx.rs:95-102 | Every paragraph item keeps its place. Only direct runs are entered. |
| DocumentTree.SanitizedBlocks | src/docx.rs:92-107 | Every block keeps its place. Only paragraph blocks are entered. |
| DocumentTree.SanitizeRun | src/docx.rs:97-101 | The loop over a run's content sanitizes each drawing in place. |
| DocumentTree.SanitizeParagraph | src/docx.rs:95-102 | The loop over a paragraph sanitizes every direct run. |
| DocumentTree.SanitizeBlocks | src/docx.rs:92-107 | The loop over blocks sanitizes every paragraph block. |
| DocumentTree.WalkLeavesNoAnchor | src/docx.rs:92-107 | After the walk, no drawing in a direct run of a paragraph block has an anchor. |
| DocumentTree.TablesAndLinksUntouched | src/docx.rs:96-105 | Non-paragraph blocks and non-run paragraph items, hyperlinks included, are unchanged. |
| DocumentTree.ItemsErasure | src/docx.rs:97-101 | With drawings blanked out, a run's items are the same before and after. |
| DocumentTree.InlinesErasure | src/docx.rs:95-102 | The same for a paragraph's items. |
| DocumentTree.WalkChangesOnlyDrawings | src/docx.rs:92-107 | With the visited drawings blanked out, the blocks are the same before and after: nothing but drawings changes. |
| DocumentTree.ItemsIdempotent | src/docx.rs:97-101 | Sanitizing a run's items twice equals doing it once. |
| DocumentTree.InlinesIdempotent | src/docx.rs:95-102 | Sanitizing a paragraph's items twice equals doing it once. |
| DocumentTree.WalkIdempotent | src/docx.rs:92-107 | A second walk changes nothing. |
| Package.PartEntryIsTarget | src/docx.rs:175-219 | Each optional part's zip name is `word/` followed by its relationship target. |
| Package.OptionalRelsSnoc | src/docx.rs:179-219 | One more optional part adds its relationship exactly when it is present. |
| Package.KeyRels | src/docx.rs:221-237 | One relationship of the given type per key, in enumeration order, targeting that key. |
| Package.MediaRels | src/docx.rs:239-244 | One relationship per media key, in order, typed by the media's relation type and targeting the key. |
| Package.OptionalEntriesSnoc | src/docx.rs:275-281 | One more optional part adds its zip entry exactly when it is present. |
| Package.WordEntries | src/docx.rs:286-308 | One `word/` + key entry per header, footer or theme key, in order. |
| Package.CustomEntries | src/docx.rs:316-319 | One entry per custom XML name, under that name. |
| Package.SanitizedParts | src/docx.rs:115-151 | Sanitizing a header or footer map keeps its keys. |
| Package.SanitizePartMap | src/docx.rs:115-151 | The loop over a header or footer map sanitizes the blocks of every part. |
| Package.Docx.constructor | src/docx.rs:36-67 | Every field of the new `Docx` is the given value. |
| Package.Docx.SanitizeAllDrawings | src/docx.rs:81-86 | The body, then the headers, then the footers are sanitized. Nothing else changes, and the result is `Ok(())`. |
| Package.Docx.SanitizeDrawingsInBody | src/docx.rs:89-109 | The body blocks become their sanitized form. |
| Package.Docx.SanitizeDrawingsInHeaders | src/docx.rs:112-131 | Every header's blocks become their sanitized form, and the keys are kept. |
| Package.Docx.SanitizeDrawingsInFooters | src/docx.rs:134-153 | Every footer's blocks become their sanitized form, and the keys are kept. |
| Package.Docx.AddDocumentRel | src/docx.rs:175-177 | `get_or_insert` then `add_rel`: the document relationships exist and gain the relationship at the end. |
| Package.Docx.AddPartRel | src/docx.rs:179-219 | One optional part's relationship is added exactly when the part is present. |
| Package.Docx.AddKeyRels | src/docx.rs:221-237 | The key relationships are appended in order. |
| Package.Docx.AddMediaRels | src/docx.rs:239-244 | The media relationships are appended in order. |
| Package.Docx.AddOptionalPartRels | src/docx.rs:179-219 | The present optional parts' relationships are appended in the fixed order. |
| Package.Docx.RegisterPackageRels | src/docx.rs:164-173 | Package relationships gain app only if app is present, then core only if core is present, then `word/document.xml`. |
| Package.Docx.RegisterDocumentRels | src/docx.rs:175-244 | Document relationships are created if absent and gain styles, the present optional parts, headers, footers (typed as headers), themes and media, in that order. |
| Package.Docx.RegisterRelationships | src/docx.rs:162-244 | The package relationships, then the document relationships, are registered as above. |
| Package.Docx.WritePartEntry | src/docx.rs:275-281 | One optional part is written exactly when present. |
| Package.Docx.WriteOptionalEntries | src/docx.rs:275-281 | The present optional parts are written in the fixed name order. |
| Package.Docx.WriteLeadingEntries | src/docx.rs:269-274 | Content types, app if present, core if present, package rels, document and styles, in that order. |
| Package.Docx.WriteRelsEntries | src/docx.rs:282-283 | The document and settings relationship parts, each only if present. |
| Package.Docx.WriteFixedEntries | src/docx.rs:268-284 | The fixed write list, in order. |
| Package.Docx.Write | src/docx.rs:155-322 | `write` registers the relationships as above and then writes the fixed list, headers, footers, themes, media and custom XML. |
| Package.Docx.WriteCompatible | src/docx.rs:71-78 | Sanitizes every drawing, then writes. The result is Ok with the written entries. |
| Package.WriteWordEntries | src/docx.rs:286-308 | The loop writes `word/` + key for each key in order. |
| Package.WriteCustomEntries | src/docx.rs:316-319 | The loop writes each custom XML name in order. |
| Package.AllPartsListed | src/docx.rs:275-281 | Every optional part is in the fixed name list. |
| Package.OptionalRelsMember | src/docx.rs:179-219 | A relationship is among the optional relationships if and only if it belongs to a listed, present part. |
| Package.OptionalEntriesMember | src/docx.rs:275-281 | An entry is among the optional entries if and only if it is a listed, present part. |
| Package.OptionalRelsExactlyPresent | src/docx.rs:179-219 | Each optional part adds its relationship if and only if it is present. |
| Package.PackageRelsOrder | src/docx.rs:164-173 | The package relationships have 1 + app + core members. The last is the document. app and core appear exactly when present, app first. |
| Package.DocumentRelsCount | src/docx.rs:175-244 | Styles comes first. Each present optional part adds exactly one relationship. The count is 1 + present parts + headers + footers + themes + media. |
| Package.FootersRegisteredAsHeaders | src/docx.rs:227-231 | Every footer is registered with the header type. No relationship has the footer type unless a media type maps to it. |
| Package.OptionalRelsWritten | src/docx.rs:179-219 | Every optional relationship names a part that is written. |
| Package.KeyRelsWritten | src/docx.rs:221-237 | Every header, footer or theme relationship names a `word/` entry that is written. |
| Package.MediaRelsWritten | src/docx.rs:239-244 | Every media relationship names a `word/` entry that is written. |
| Package.DocumentTargetWritten | src/docx.rs:175-314 | Every document relationship's target is written under `word/`. |
| Package.RegisteredTargetsAreWritten | src/docx.rs:162-319 | Every registered package or document relationship names an entry that `write` writes. |
| Package.FixedEntriesFacts | src/docx.rs:268-284 | Content types come first. Package rels, document and styles are always written. app, core, document rels and settings rels appear exactly when present, and so does each optional part. |
| Package.SanitizedPartsUnanchored | src/docx.rs:112-153 | After sanitizing, no visited drawing in any header or footer has an anchor, and the keys are kept. |
| PackageReader.ByName | src/docx.rs:533 | `by_name` succeeds only on an entry that opens. |
| PackageReader.OptionReadMeaning | src/docx.rs:540-552 | `option_read!` is Ok if and only if the part is missing, or reports not found, or holds readable text. A missing part is None; otherwise the value is the text. |
| PackageReader.ReadMultipleMember | src/docx.rs:554-570 | A name and text are collected exactly when the name is listed, contains the substring and holds readable text. Unreadable entries are dropped. |
| PackageReader.ReadMultipleFilesMember | src/docx.rs:572-588 | A name and bytes are collected exactly when the name is listed, contains the substring and opens. |
| PackageReader.WellFormedReadMultiple | src/docx.rs:554-588 | When the listed names are exactly the archive's entries, each listed once, both readers collect an entry exactly when the archive holds it under a name containing the substring and it reads. |
| PackageReader.FromReaderSucceeds | src/docx.rs:528-634 | `from_reader` succeeds if and only if content types, document and package rels read and every optional part is missing or reads. |
| PackageReader.HeadSucceeds | src/docx.rs:590-594 | The first five reads succeed if and only if each does. |
| PackageReader.MiddleSucceeds | src/docx.rs:595-598 | The next four reads succeed if and only if each does. |
| PackageReader.TailSucceeds | src/docx.rs:599-604 | The last six reads succeed if and only if each does. |
| PackageReader.RequiredPartMissing | src/docx.rs:591-597 | A missing `[Content_Types].xml`, `word/document.xml` or `_rels/.rels` fails the read. |
| PackageReader.BrokenPartFails | src/docx.rs:531-552 | Any zip error other than not found on a single-part name, or text that is not UTF-8, fails the read. |
| PackageReader.FromReaderContents | src/docx.rs:590-633 | Each field is the text under its name. Missing optional parts are None. The multi-part fields collect `word/header`, `word/footer`, `word/theme/theme`, `word/media` and `custom`. |
| PackageReader.HeadContents | src/docx.rs:590-594 | The first five fields are the texts under their names. |
| PackageReader.MiddleContents | src/docx.rs:595-598 | The next four fields are the texts under their names. |
| PackageReader.TailContents | src/docx.rs:599-604 | The last six fields are the texts under their names. |
| PackageParser.ParseParts | src/docx.rs:652-664 | The header, footer or theme loop gives the part map: the first parse error, or every part under its key with `word/` removed. |
| PackageParser.CollectMedia | src/docx.rs:666-674 | The media loop keeps exactly the entries whose type is recognised. |
| PackageParser.Parse | src/docx.rs:643-827 | `parse` fails if and only if a step fails, with the first failing step's error in source order. On success every field is its parsed, filtered or defaulted value. |
| PackageParser.PartMapErrorSticks | src/docx.rs:653-657 | Once a part fails, later entries do not change the result. |
| PackageParser.PartMapSucceeds | src/docx.rs:653-657 | The part map is Ok if and only if every part parses. |
| PackageParser.PartMapFirstError | src/docx.rs:653-657 | A failing part map fails with the error of the first part that fails to parse; every part before it parses. |
| PackageParser.PartMapKeys | src/docx.rs:653-657 | The keys are exactly the entry names with `word/` removed. |
| PackageParser.PartMapLastWins | src/docx.rs:653-657 | Under each key is the last entry with that key. |
| PackageParser.MediaMapKeys | src/docx.rs:666-674 | A media key is present if and only if some entry with that stripped name has a recognised type. |
| PackageParser.MediaMapValues | src/docx.rs:666-674 | Each media value comes from an entry with that stripped name. |
| PackageParser.CustomMapKeys | src/docx.rs:799-803 | The custom XML keys are exactly the entry names, unchanged. |
| PackageParser.WordEntryRoundTrip | src/docx.rs:652-657 | A key free of `word/`, written as `word/` + key, is read back as the same key. |
| PackageParser.StripWordAbsent | src/docx.rs:655 | A name without `word/` is its own key. |
| PackageParser.KeepTypesMember | src/docx.rs:697-722 | A relationship survives the filter if and only if it was there and its type is kept. |
| PackageParser.KeepTypesAppend | src/docx.rs:697-722 | The filter distributes over concatenation, so order is preserved. |
| PackageParser.KeepTypesAllKept | src/docx.rs:697-722 | A sequence whose types are all kept passes unchanged. |
| PackageParser.KeepTypesIdempotent | src/docx.rs:697-722 | Filtering twice equals filtering once. |
| PackageParser.PackageRelsKept | src/docx.rs:775-790 | The package relationships `write` registers all survive `parse`'s filter. |
| PackageParser.DocumentRelsKept | src/docx.rs:697-722 | The document relationships `write` registers all survive `parse`'s filter when every media type maps to a kept type. |
| PackageParser.WebSettingsUnchanged | src/docx.rs:754-760 | Web settings without `ns0:` reach their parser unchanged. |
| PackageParser.WebSettingsRenamed | src/docx.rs:754-760 | A leading `ns0:` is renamed `w:`. |
| PackageParser.OnlyRequiredParts | src/docx.rs:643-827 | With only the required parts, `parse` fails only on document, content types or package rels, in that order, and styles default. |

## Left out

- Zip container I/O is not modelled: `ZipArchive::new`, `ZipWriter`, compression options, `start_file`, `write_all` and `finish`. The archive is a value, and `write` returns the list of entries it writes.
- File-system calls are not modelled: `write_file`, `from_file`, `create_dir_all`, `File::create`. Errors from the writer stream, from `to_writer` of each part and from reading a zip entry are not modelled either, except non-UTF-8 text.
- The async paths (src/docx.rs:333-500, 830-918) are not modelled. They repeat the synchronous logic over async streams.
- Encoders and decoders derived by `hard_xml` are not modelled. This covers every part's `from_str`, the children of `wp:anchor`, and `Hyperlink`'s encoding (so the claim that a default hyperlink encodes as `<w:hyperlink/>` is not covered). Part parsers are function parameters, and anchor children are opaque tokens.
- `Relationships::add_rel` is modelled as an append of a (type, target) pair; relationship id assignment is not modelled.
- Relationship type URIs are modelled as an enumeration of the schema constants, not as strings. The URI strings are not part of this model, so `OtherType` is not constrained to exclude them: the `rels` parser parameter is taken to return a named constructor for each schema URI and `OtherType` only for other strings.
- `media::get_media_type`, `media::get_media_type_relation_type` and `Styles::default()` are parameters. Their code is not part of this model.
- `Run`, `Paragraph`, `Body` and `BidirectionalEmbedding` are not part of this model. A run is a sequence of text leaves, drawings and other items. A bidirectional embedding contributes only its text leaves.
- `Run::replace_text` is a parameter of `Hyperlink.ReplaceText` that returns the run as the call leaves it, together with the call's result, so a call that fails part-way may leave its run partly rewritten. Which rewrites it makes before failing is not modelled, since its code is not part of this model. Its dictionary form is modelled as infallible.
- `first_run_mut` and `iter_text_mut` are not modelled; they only hand out mutable references.
- `DrawingMLError`'s `Display` text, `CnvPicPr` and the `DocxSaveOptions` feature-flag defaults are not modelled.
- Text is a sequence of characters; UTF-8 byte lengths are not modelled.
- `HashMap` iteration order is an explicit enumeration parameter for headers, footers, themes, media and custom XML. Which order the crate uses is not modelled.
- Integer widths are subset types: `isize` as 64-bit, `u64`, and the templates' `u32`/`i32`. No arithmetic is done on them, so there is no wrap-around.
- SafeMode.Docx.SaveWithOptions: the document is represented by its body paragraphs only, as the template walks only those.
