# pptxtomd in Dafny

pptxtomd converts a PowerPoint deck (`.pptx`) into reveal.js Markdown. This project models
four parts of it and proves properties about them:

- `PptxSlideParser` reads the slides of the presentation package into `Slide` objects:
  - titles, subtitles and free text become `Titles`, `SubTitles` and `Bullets`;
  - pictures become `Images`;
  - the body placeholder of the notes slide becomes `Notes`.
- `Program.GenerateOutput` does the following, in order:
  1. it scrubs blank titles, subtitles and bullets from every slide, in place;
  2. it decides where the output goes: the console, one `.MD` file, or one file per slide in a directory;
  3. it saves the images as `{ID}-img{i+1}.jpg`;
  4. it writes the Markdown.
- `RevealJsMarkdownFormatter.Convert` renders one slide as Markdown.
- `Slide` holds one slide's properties.

Modules, one per file:

| file | module | contents |
|---|---|---|
| `wrappers.dfy` | `Wrappers` | `Option`, `Result` |
| `strings.dfy` | `Strings` | the .NET string primitives the program relies on: whitespace tests, ASCII case folding, `LastIndexOf`, decimal `Int32.ToString` and its inverse |
| `model.dfy` | `Model` | `Guid` and its "D" format, `Bullet`, `Image`, the class `Slide` and its value `SlideData` |
| `openxml.dfy` | `OpenXml` | the part of a PresentationML package (ECMA-376 Part 1) that the parser reads, as plain datatypes |
| `formatter.dfy` | `Formats` | `Convert` as a method over a `StringBuilder`-like string, proved equal to the specification function `Render`; the line grammar of its output |
| `parser.dfy` | `Parsers` | the class `PptxSlideParser` with `Parse` and `ParseSlide` and their loops, proved equal to `ParseDocument` and `ExtractSlide`; lemmas that characterise those functions shape by shape |
| `program.dfy` | `Program` | `GetOutput`, `GetParser`, the output layout, the file names, the in-place scrub, and `GenerateOutput` as the ordered trace of file-system and console effects it performs |

Each method is proved against a specification function: `Convert` against `Render` of
the slide, `Parse` against `ParseDocument` of the document, and `ParseSlide` against
`ExtractSlide` of the slide part. `GenerateOutput` is proved to scrub every slide in place
and then to perform exactly the effects `Plan` gives for the scrubbed slides. The lemmas
then state what the source promises about those functions.

Exceptions become `Err` values:

- the formatter's `ArgumentOutOfRangeException` on a negative bullet level is `NegativeIndent`;
- the parser's `ArgumentNullException`, failed `GetPartById` lookups, failed casts and null dereferences are `ParseError`s;
- `GetParser`'s `FormatException` and the `Substring(0, -1)` on a single-file path without a separator are `ProgramError`s.

## Model

| member | source | states |
|---|---|---|
| Model.Slide.constructor | PptxToMd/Model/Slide.cs:11-18 | a new Slide has empty Titles, SubTitles, Bullets and Images, no Notes, and the given ID; ID is a `const` field, so, as with the get-only property at Slide.cs:25, nothing changes it afterwards |
| Model.GuidToString | PptxToMd/Formats/RevealMarkdownFormatter.cs:61 | `Guid.ToString()` is 36 characters with dashes at positions 8, 13, 18 and 23 |
| Model.GuidToStringAt | PptxToMd/Formats/RevealMarkdownFormatter.cs:61 | digit i of the Guid is printed, in lower-case hex, at its fixed position in the "D" format |
| Model.GuidToStringInjective | PptxToMd/Program.cs:150-152 | two Guids that print the same are equal, so the ID in an image name identifies the slide |
| Strings.LastIndexOf | PptxToMd/Program.cs:139 | -1 exactly when the character is absent; otherwise an index holding the character with no occurrence after it |
| Strings.ParseNatToString | PptxToMd/Formats/RevealMarkdownFormatter.cs:61 | the decimal text of `i + 1` is all digits and reads back as the same number |
| Strings.NatToStringInjective | PptxToMd/Program.cs:152 | different image or slide numbers give different decimal texts |
| Formats.Convert | PptxToMd/Formats/RevealMarkdownFormatter.cs:32-72 | the StringBuilder loops return exactly `Render` of the slide's current properties, or the exception of the first bullet with a negative Level |
| Formats.AppendBullets | PptxToMd/Formats/RevealMarkdownFormatter.cs:50-53 | the bullet loop appends one line per bullet, or stops with the first negative indent |
| Formats.AppendImages | PptxToMd/Formats/RevealMarkdownFormatter.cs:59-62 | the image loop appends the references to images 1..n in order |
| Formats.BulletBlockPrefixErr | PptxToMd/Formats/RevealMarkdownFormatter.cs:50-53 | once a bullet has thrown, the later bullets do not change the outcome |
| Formats.HeadingBlockLines | PptxToMd/Formats/RevealMarkdownFormatter.cs:36-44 | the title loop writes one `"# " + title` line per title, and the subtitle loop one `"## " + subtitle` line per subtitle, in list order |
| Formats.BulletBlockLines | PptxToMd/Formats/RevealMarkdownFormatter.cs:50-53 | with no negative Level, the bullet loop writes one line per bullet: 2·Level spaces, `"* "`, the text |
| Formats.ImageBlockLines | PptxToMd/Formats/RevealMarkdownFormatter.cs:59-62 | image i is written as `![Image](prefix/{ID}-img{i+1}.jpg)`: one-based, positional, always `.jpg` |
| Formats.SeparatorLine | PptxToMd/Formats/RevealMarkdownFormatter.cs:46-49 | the bullet and image blocks are each preceded by a blank line exactly when they are non-empty |
| Formats.NotesLine | PptxToMd/Formats/RevealMarkdownFormatter.cs:64-68 | the notes block is `"\nNotes: " + notes + "\n"` when the notes are neither null nor blank, and empty otherwise |
| Formats.BulletBlockFailsIff | PptxToMd/Formats/RevealMarkdownFormatter.cs:52 | the bullet loop throws if and only if some bullet has a negative Level |
| Formats.RenderFailsIff | PptxToMd/Formats/RevealMarkdownFormatter.cs:52 | Convert throws if and only if some bullet has a negative Level; titles, images and notes never make it fail |
| Formats.RenderIsLineGrammar | PptxToMd/Formats/RevealMarkdownFormatter.cs:36-71 | with no negative Level, the output is exactly the following lines, each ended by "\n": the titles, the subtitles, a blank line and the bullets when there are any, a blank line and the images when there are any, the notes block, and three blank lines |
| Formats.RenderEndsWithTrailer | PptxToMd/Formats/RevealMarkdownFormatter.cs:69 | every rendered slide ends with "\n\n\n" |
| Formats.RenderEmptySlide | PptxToMd/Formats/RevealMarkdownFormatter.cs:36-71 | a slide with no titles, subtitles, bullets or images and with blank notes renders to exactly "\n\n\n" |
| Parsers.Classify | PptxToMd/Parsers/PptxSlideParser.cs:99-115 | Title and CenteredTitle are titles; SubTitle is a subtitle; no placeholder or a Body placeholder is free text; a placeholder without a type fails; every other type is skipped |
| Parsers.FirstBodyPlaceholder | PptxToMd/Parsers/PptxSlideParser.cs:152-161 | FirstOrDefault tests the shapes in order: None exactly when every shape is a placeholder of a type other than Body; otherwise the first Body placeholder, when every shape before it is such a placeholder; otherwise it throws on the first shape without a placeholder type |
| Parsers.PptxSlideParser.constructor | PptxToMd/Parsers/PptxSlideParser.cs:29-32 | the parser holds the opened document |
| Parsers.PptxSlideParser.Parse | PptxToMd/Parsers/PptxSlideParser.cs:48-76 | returns fresh Slides whose values are `ParseDocument` of the document, or the exception `ParseDocument` gives |
| Parsers.PptxSlideParser.ParseSlideIds | PptxToMd/Parsers/PptxSlideParser.cs:62-71 | the slide-id loop appends one fresh parsed slide per id in list order, or stops at the first slide that throws |
| Parsers.PptxSlideParser.ParseSlideAt | PptxToMd/Parsers/PptxSlideParser.cs:65-70 | fails with the exception of GetPartById, of the cast to SlidePart or of ParseSlide; otherwise returns a fresh Slide holding what ParseSlide reads from the part |
| Parsers.PptxSlideParser.ParseSlide | PptxToMd/Parsers/PptxSlideParser.cs:84-170 | returns a fresh Slide whose value is `ExtractSlide` of the part, or the exception `ExtractSlide` gives |
| Parsers.PptxSlideParser.AddShapeText | PptxToMd/Parsers/PptxSlideParser.cs:99-130 | one turn of the shape loop adds what `AddShape` says, or reports the exception `AddShape` gives and leaves Titles, SubTitles and Bullets as they were; Images and Notes are untouched |
| Parsers.PptxSlideParser.AddParagraphs | PptxToMd/Parsers/PptxSlideParser.cs:121-129 | appends one bullet per paragraph to Bullets and changes nothing else |
| Parsers.PptxSlideParser.AddImages | PptxToMd/Parsers/PptxSlideParser.cs:135-146 | appends `ImagesOf` the pictures to Images, or reports the first unresolved relationship; the text fields and Notes are untouched |
| Parsers.PptxSlideParser.ReadNotes | PptxToMd/Parsers/PptxSlideParser.cs:149-167 | returns the notes `NotesOf` gives, or the exception of the lookup |
| Parsers.TextPassPrefixErr | PptxToMd/Parsers/PptxSlideParser.cs:97-131 | once a shape has thrown, the later shapes do not change the outcome |
| Parsers.ImagesOfPrefixErr | PptxToMd/Parsers/PptxSlideParser.cs:136-146 | once a picture has failed to resolve, the later pictures do not change the outcome |
| Parsers.ParseSlidesPrefixErr | PptxToMd/Parsers/PptxSlideParser.cs:62-71 | once a slide has thrown, the later slide ids do not change the outcome |
| Parsers.AddShapeContents | PptxToMd/Parsers/PptxSlideParser.cs:99-130 | one shape succeeds exactly when it is readable, and then adds its title, its subtitle and its bullets |
| Parsers.TextPassCharacterization | PptxToMd/Parsers/PptxSlideParser.cs:97-131 | the shape loop succeeds iff every shape is readable; Titles, SubTitles and Bullets are then the shapes' contributions concatenated in document order |
| Parsers.OtherPlaceholderIsSkipped | PptxToMd/Parsers/PptxSlideParser.cs:100-114 | a placeholder of any type other than Body, Title, CenteredTitle and SubTitle changes nothing |
| Parsers.FreeTextIsBullets | PptxToMd/Parsers/PptxSlideParser.cs:117-129 | a shape with no placeholder gives one bullet per paragraph, in order, with the paragraph's text and its level or 0 |
| Parsers.ImagesOfCharacterization | PptxToMd/Parsers/PptxSlideParser.cs:135-146 | the picture loop succeeds iff every relationship id resolves; image i then has the URI, content type and data of picture i's part |
| Parsers.NotesOfCharacterization | PptxToMd/Parsers/PptxSlideParser.cs:149-167 | the notes are left null iff there is no notes part or shape tree, or every shape is a placeholder of a type other than Body; they are the text of the first Body placeholder when every shape before it is such a placeholder; otherwise the lookup throws, on the first shape without a placeholder type or on a Body placeholder without text |
| Parsers.NotesAfterTextBoxThrow | PptxToMd/Parsers/PptxSlideParser.cs:157-161 | a notes slide with a text box (no placeholder) before its Body placeholder throws instead of giving the Body text |
| Parsers.ExtractSlideCharacterization | PptxToMd/Parsers/PptxSlideParser.cs:84-170 | ParseSlide succeeds iff the slide exists, every shape is readable, every picture resolves and the notes can be read; the slide then has the given ID, the shapes' titles, subtitles and bullets, one image per picture, and the notes |
| Parsers.ParseSlidesCharacterization | PptxToMd/Parsers/PptxSlideParser.cs:62-71 | the slide-id loop succeeds iff every slide parses; result k is then the slide ParseSlide reads from id k's part |
| Parsers.ParseOneSlidePerId | PptxToMd/Parsers/PptxSlideParser.cs:53-75 | with a slide id list, Parse gives exactly one slide per id, in list order, and slide k has the k-th Guid |
| Parsers.ParseWithoutSlideIdList | PptxToMd/Parsers/PptxSlideParser.cs:53-59 | a missing presentation part, presentation or slide id list gives an empty list, not an error |
| Parsers.ParsedIdsDistinct | PptxToMd/Parsers/PptxSlideParser.cs:70 | when the Guids given to the parsed slides are pairwise distinct, so are the IDs of the slides Parse returns, which is the hypothesis of ImageFilesDistinct |
| Program.GetOutput | PptxToMd/Program.cs:76 | null iff there are fewer than two arguments or the second is null or blank; otherwise the second argument |
| Program.GetParser | PptxToMd/Program.cs:59-66 | a file is accepted iff its last five characters are ".PPTX" in any (ASCII) case; otherwise the result is the unrecognised-file-type exception |
| Program.ResolveLayout | PptxToMd/Program.cs:132-140 | no output: console; a ".MD" output (any case): single file in the directory before the last separator, and an exception if there is no separator; any other output: one file per slide in that directory |
| Program.LastDir | PptxToMd/Program.cs:158-160 | "/" followed by the last path component of the output directory; empty in console mode |
| Program.ImagePathForm | PptxToMd/Program.cs:158-161 | the image prefix is "./img" in console mode, and otherwise "./", the last component of the output directory, then "/img" |
| Program.ImageFileNameInjective | PptxToMd/Program.cs:150-152 | the ID and the index can be read back from an image file name |
| Program.ImageFilesDistinct | PptxToMd/Program.cs:146-155 | when the slide IDs are distinct, no two images are saved to the same path |
| Program.SlideFileNameInjective | PptxToMd/Program.cs:185 | no two slides are written to the same `slide{i+1}.MD` |
| Program.ReferencedImageIsSaved | PptxToMd/Program.cs:150-161 | the formatter refers to image i by the name under which it is saved; with "/" separators the reference, resolved from the output directory's parent, is the saved path |
| Program.RemoveAllFilters | PptxToMd/Program.cs:127-129 | RemoveAll leaves no element it removes and keeps every other one |
| Program.RemoveAllAppend | PptxToMd/Program.cs:127-129 | RemoveAll works element by element, so kept elements stay in their relative order |
| Program.RemoveAllNothingToRemove | PptxToMd/Program.cs:127-129 | a list with nothing blank is left unchanged |
| Program.RemoveAllIdempotent | PptxToMd/Program.cs:127-129 | removing twice is removing once |
| Program.ScrubLeavesNoBlank | PptxToMd/Program.cs:126-130 | after the scrub no title, subtitle or bullet text is blank, every non-blank one is still present, and Notes, Images and ID are unchanged |
| Program.ScrubKeepsOrderAndCount | PptxToMd/Program.cs:126-130 | the scrubbed Titles, SubTitles and Bullets are subsequences of the originals, and each non-blank element occurs as many times as before |
| Program.RemoveAllKeepsOrder | PptxToMd/Program.cs:127-129 | RemoveAll leaves a subsequence of the list |
| Program.RemoveAllKeepsCount | PptxToMd/Program.cs:127-129 | RemoveAll keeps every other element as many times as it occurs, and no removed one |
| Program.ScrubIdempotent | PptxToMd/Program.cs:126-130 | scrubbing twice equals scrubbing once |
| Program.ScrubSlide | PptxToMd/Program.cs:127-129 | the three RemoveAll calls change the slide in place to its scrubbed value |
| Program.Scrub | PptxToMd/Program.cs:126-130 | every slide in the list is changed in place to its scrubbed value, even when a slide occurs twice |
| Program.SlideImageSaves | PptxToMd/Program.cs:148-154 | one save per image of the slide |
| Program.SaveImages | PptxToMd/Program.cs:146-155 | the image loop saves every image of every slide, slide by slide and in index order |
| Program.ImageSavesMembership | PptxToMd/Program.cs:146-155 | a save is performed iff it writes image i of some slide, as `{ID}-img{i+1}.jpg` in the image directory |
| Program.BuildMarkdown | PptxToMd/Program.cs:165-166 | the single Markdown text is the slides' renderings appended in order, or the first formatter exception |
| Program.MarkdownPrefixErr | PptxToMd/Program.cs:166 | once a slide's Convert has thrown, the later slides do not change the outcome |
| Program.MarkdownCharacterization | PptxToMd/Program.cs:165-166 | the Markdown text exists iff every slide renders, and is then the concatenation of the renderings in slide order |
| Program.WriteSlides | PptxToMd/Program.cs:183-186 | the per-slide loop writes slide i to `slide{i+1}.MD`, in order, up to the first slide whose Convert throws |
| Program.SlideWritesPrefixFailure | PptxToMd/Program.cs:183-186 | once a slide's Convert has thrown, the later slides do not change the outcome |
| Program.SlideWritesCharacterization | PptxToMd/Program.cs:183-186 | write i goes to `slide{i+1}.MD` with slide i's rendering; the loop stops exactly at the first slide that does not render |
| Program.SetUpOutput | PptxToMd/Program.cs:135-156 | creates the output and image directories and saves the images, or does nothing in console mode |
| Program.SetupIsDirectoriesAndImages | PptxToMd/Program.cs:141-155 | before any Markdown is written, GenerateOutput only creates directories and saves images |
| Program.EmitMarkdown | PptxToMd/Program.cs:163-187 | writes the Markdown to the console, to the single file, or to one file per slide |
| Program.GenerateOutput | PptxToMd/Program.cs:123-188 | scrubs every slide in place, then performs exactly the effects `Plan` gives for the scrubbed slides |
| Program.ConsoleOutput | PptxToMd/Program.cs:163-174 | console mode touches no file: it writes the concatenated Markdown, then "END OF SLIDESHOW - PRESS ANY KEY TO EXIT", then waits for a key; it fails iff some bullet has a negative Level |
| Program.SingleFileOutput | PptxToMd/Program.cs:163-178 | single-file mode writes the concatenated Markdown to the output path, after the directories and images, as its only text write |
| Program.PerSlideOutput | PptxToMd/Program.cs:180-187 | per-slide mode creates the output directory and its "img" directory, saves images, then writes slide i's Markdown to `slide{i+1}.MD` in the output directory; it succeeds iff no bullet has a negative Level |

## Left out

- Console and file-system I/O: `Main` and `GetFilename` (`Console.ReadLine`, `File.Exists`, `Environment.UserInteractive`) are not modelled. `Directory.CreateDirectory`, `Image.Save`, `File.WriteAllText` and the console calls are recorded as an ordered trace of effects, without their behaviour.
- `GetFormat` and the interfaces `ISlideFormatter` and `ISlideParser` have no behaviour to model. `GetFormat` always picks the reveal.js formatter.
- `PresentationDocument.Open` and `Dispose` are not modelled: the parser's constructor is given the opened document.
- OpenXML access is abstracted to datatypes:
  - `Descendants<Shape>()` and `Descendants<Picture>()` are depth-first traversals of the shape tree;
  - `InnerText` is the concatenation of the paragraph texts;
  - `GetPartById` is a lookup in a map.
- Parsers.ExtractSlide: the SDK's own failures are modelled as error values, not as exceptions:
  - converting a missing placeholder type to the enum is `MissingPlaceholderType`: in the shape loop for a placeholder without a type, and in the notes lookup also for a shape without a placeholder;
  - a missing text body is `MissingTextBody`;
  - a missing relationship is `UnknownRelationship` or `UnresolvedImage`;
  - a non-slide part is `NotASlidePart`;
  - a null `NonVisualShapeProperties`, `BlipFill` or `Blip`, and a `p:blip` without `r:embed`, are not representable: every Shape has its non-visual properties and every Picture its relationship id.
- Image decoding (`System.Drawing.Image.FromStream`) is left out: image data is an opaque byte sequence.
- `Guid.NewGuid()` is random: slide k of a document receives `newGuid(k)`, and distinctness is a hypothesis of ParsedIdsDistinct and ImageFilesDistinct.
- Program.GetParser and Program.ResolveLayout: `CurrentCultureIgnoreCase` is modelled as ASCII case folding, which ignores culture-specific case mappings. `Char.IsWhiteSpace` is a fixed list of the Unicode whitespace characters.
- `Path.DirectorySeparatorChar` is a parameter. Program.ReferencedImageIsSaved is stated only for the separator '/', because Markdown links use '/'.
- Formats.Render: `Level * 2` is computed on unbounded integers. The 32-bit overflow of `bullet.Level * 2` for levels above 2^30 is not modelled.
- The formatter's `StringBuilder` and the parser's `List<T>` are modelled as sequences that the methods reassign. Slide's list properties are fields of type `seq`, so aliasing of one list between two slides is not captured.
