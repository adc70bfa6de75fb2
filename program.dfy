/**
 * Program: the command-line driver around the parser and the formatter.
 *
 * GetOutput, GetParser and the layout expressions of GenerateOutput are pure; the scrub
 * changes every parsed slide in place; GenerateOutput itself is modelled as the sequence
 * of file-system and console effects it performs, in order, and the error that stops it,
 * if any.  The directory separator is a parameter.
 */
module Program {
  import opened Wrappers
  import opened Strings
  import opened Model
  import opened Formats

  datatype ProgramError =
    | UnrecognizedFileType(file: string)   // FormatException thrown by GetParser
    | NoDirectorySeparator(output: string) // Substring(0, -1) on a separator-free ".md" path
    | ConvertFailed(error: FormatError)    // an exception thrown by the formatter

  // ---------------------------------------------------------------------------------
  // Command line
  // ---------------------------------------------------------------------------------

  /** The output path: the second argument, unless it is missing, null or blank, in
      which case the output goes to the console (None). */
  function GetOutput(args: seq<Option<string>>): (r: Option<string>)
    ensures r.None? <==> |args| < 2 || args[1].None? || IsBlank(args[1].value)
    ensures r.Some? ==> Some(r.value) == args[1] && !IsBlank(r.value)
  {
    if |args| < 2 || IsNullOrWhiteSpace(args[1]) then None else args[1]
  }

  /** The input file is accepted, and handed to the PPTX parser, exactly when its last
      five characters are ".PPTX" up to (ASCII) case; anything else is an unrecognised
      file type. */
  function GetParser(file: string): (r: Result<string, ProgramError>)
    ensures r.Ok? <==> |file| >= 5 && forall i :: 0 <= i < 5 ==> ToUpperAscii(file[|file| - 5 + i]) == ".PPTX"[i]
    ensures r.Ok? ==> r.value == file
    ensures r.Err? ==> r.error == UnrecognizedFileType(file)
  {
    if EndsWithIgnoreCase(file, ".PPTX") then Ok(file) else Err(UnrecognizedFileType(file))
  }

  // ---------------------------------------------------------------------------------
  // Output layout
  // ---------------------------------------------------------------------------------

  datatype OutputMode = ConsoleMode | SingleFileMode | PerSlideMode

  /** Where the output goes: the mode, and the output directory (null in console mode). */
  datatype Layout = Layout(mode: OutputMode, outputDirectory: Option<string>)

  /** A path ending in ".MD" (any case) is a single Markdown file, written into the
      directory before its last separator; any other path is a directory holding one
      file per slide; no path at all is the console. */
  function ResolveLayout(output: Option<string>, sep: char): (r: Result<Layout, ProgramError>)
    ensures output.None? ==> r == Ok(Layout(ConsoleMode, None))
    ensures output.Some? && !EndsWithIgnoreCase(output.value, ".MD")
            ==> r == Ok(Layout(PerSlideMode, output))
    ensures output.Some? && EndsWithIgnoreCase(output.value, ".MD") ==>
              (r.Err? <==> sep !in output.value)
              && (r.Err? ==> r.error == NoDirectorySeparator(output.value))
              && (r.Ok? ==>
                    r.value.mode == SingleFileMode && r.value.outputDirectory.Some?
                    && exists rest :: output.value == r.value.outputDirectory.value + [sep] + rest && sep !in rest)
  {
    match output
    case None => Ok(Layout(ConsoleMode, None))
    case Some(path) =>
      if EndsWithIgnoreCase(path, ".MD") then
        var k := LastIndexOf(path, sep);
        if k < 0 then Err(NoDirectorySeparator(path))
        else
          SplitAtLastSeparator(path, sep);
          Ok(Layout(SingleFileMode, Some(path[..k])))
      else Ok(Layout(PerSlideMode, Some(path)))
  }

  /** A path holding the separator is the directory before its last separator, the
      separator, and a last component without one. */
  lemma SplitAtLastSeparator(path: string, sep: char)
    requires sep in path
    ensures var k := LastIndexOf(path, sep);
            0 <= k && path == path[..k] + [sep] + path[k + 1..] && sep !in path[k + 1..]
  {
    var k := LastIndexOf(path, sep);
    assert path == path[..k] + [sep] + path[k + 1..];
  }

  /** "/" followed by the last component of the output directory, or nothing in console
      mode. */
  function LastDir(outputDirectory: Option<string>, sep: char): (r: string)
    ensures outputDirectory.None? ==> r == ""
    ensures outputDirectory.Some? ==>
              var dir := outputDirectory.value;
              var n := |r| - 1;
              && 0 <= n <= |dir| && r[0] == '/'
              && r[1..] == dir[|dir| - n..] && sep !in r[1..]
              && (n == |dir| || dir[|dir| - n - 1] == sep)
  {
    match outputDirectory
    case None => ""
    case Some(dir) =>
      var k := LastIndexOf(dir, sep);
      var r := "/" + dir[k + 1..];
      assert r[1..] == dir[k + 1..];
      r
  }

  /** The prefix the formatter puts in front of every image reference. */
  function ImagePath(layout: Layout, sep: char): string
  {
    "." + LastDir(layout.outputDirectory, sep) + "/img"
  }

  /** The directory the images are saved to. */
  function ImageOutputDirectory(outputDirectory: string, sep: char): string
  {
    outputDirectory + [sep] + "img"
  }

  /** The file name of image i (zero-based) of slide `id`. */
  function ImageFileName(id: Guid, i: nat): string
  {
    GuidToString(id) + "-img" + NatToString(i + 1) + ".jpg"
  }

  function ImageFilePath(imageDirectory: string, sep: char, id: Guid, i: nat): string
  {
    imageDirectory + [sep] + ImageFileName(id, i)
  }

  /** The file slide i (zero-based) is written to in per-slide mode. */
  function SlideFileName(output: string, sep: char, i: nat): string
  {
    output + [sep] + "slide" + NatToString(i + 1) + ".MD"
  }

  // ---------------------------------------------------------------------------------
  // The scrub
  // ---------------------------------------------------------------------------------

  /** List<T>.RemoveAll with the predicate `blank`. */
  function RemoveAll<T>(s: seq<T>, blank: T -> bool): seq<T>
  {
    if s == [] then []
    else
      var front := RemoveAll(s[..|s| - 1], blank);
      if blank(s[|s| - 1]) then front else front + [s[|s| - 1]]
  }

  /** r is s with some elements left out: its elements occur in s in the same order. */
  predicate IsSubsequence<T(==)>(r: seq<T>, s: seq<T>)
    decreases |s|
  {
    r == []
    || (s != []
        && ((r[|r| - 1] == s[|s| - 1] && IsSubsequence(r[..|r| - 1], s[..|s| - 1]))
            || IsSubsequence(r, s[..|s| - 1])))
  }

  /** RemoveAll drops exactly the elements `blank` holds of: what is left has none of them,
      and every other element is kept. */
  lemma {:induction false} RemoveAllFilters<T(!new)>(s: seq<T>, blank: T -> bool)
    ensures |RemoveAll(s, blank)| <= |s|
    ensures forall i :: 0 <= i < |RemoveAll(s, blank)| ==> !blank(RemoveAll(s, blank)[i])
    ensures forall x :: x in RemoveAll(s, blank) <==> x in s && !blank(x)
  {
    if s != [] {
      var last := s[|s| - 1];
      assert s == s[..|s| - 1] + [last];
      RemoveAllFilters(s[..|s| - 1], blank);
    }
  }

  /** RemoveAll keeps the remaining elements in their order. */
  lemma {:induction false} RemoveAllKeepsOrder<T(!new)>(s: seq<T>, blank: T -> bool)
    ensures IsSubsequence(RemoveAll(s, blank), s)
  {
    if s != [] {
      var front := s[..|s| - 1];
      RemoveAllKeepsOrder(front, blank);
      var r := RemoveAll(s, blank);
      if !blank(s[|s| - 1]) {
        assert r[..|r| - 1] == RemoveAll(front, blank);
      }
    }
  }

  /** RemoveAll keeps each remaining element as many times as it occurs. */
  lemma {:induction false} RemoveAllKeepsCount<T(!new)>(s: seq<T>, blank: T -> bool)
    ensures forall x :: multiset(RemoveAll(s, blank))[x] == if blank(x) then 0 else multiset(s)[x]
  {
    if s != [] {
      var front := s[..|s| - 1];
      var last := s[|s| - 1];
      assert s == front + [last];
      assert multiset(s) == multiset(front) + multiset{last};
      RemoveAllKeepsCount(front, blank);
    }
  }

  predicate IsBlankBullet(b: Bullet)
  {
    IsBlank(b.text)
  }

  /** The slide after the scrub. */
  function ScrubData(d: SlideData): SlideData
  {
    d.(titles := RemoveAll(d.titles, IsBlank),
       subTitles := RemoveAll(d.subTitles, IsBlank),
       bullets := RemoveAll(d.bullets, IsBlankBullet))
  }

  /** After the scrub no title, subtitle or bullet text is blank, every non-blank one is
      kept, and the notes, images and Guid are untouched. */
  lemma ScrubLeavesNoBlank(d: SlideData)
    ensures var r := ScrubData(d);
            && (forall i :: 0 <= i < |r.titles| ==> !IsBlank(r.titles[i]))
            && (forall i :: 0 <= i < |r.subTitles| ==> !IsBlank(r.subTitles[i]))
            && (forall i :: 0 <= i < |r.bullets| ==> !IsBlank(r.bullets[i].text))
            && (forall t :: t in r.titles <==> t in d.titles && !IsBlank(t))
            && (forall t :: t in r.subTitles <==> t in d.subTitles && !IsBlank(t))
            && (forall b :: b in r.bullets <==> b in d.bullets && !IsBlank(b.text))
            && r.notes == d.notes && r.images == d.images && r.id == d.id
  {
    RemoveAllFilters(d.titles, IsBlank);
    RemoveAllFilters(d.subTitles, IsBlank);
    RemoveAllFilters(d.bullets, IsBlankBullet);
  }

  /** The scrub keeps the non-blank titles, subtitles and bullets in their original order,
      each as many times as it occurred. */
  lemma ScrubKeepsOrderAndCount(d: SlideData)
    ensures var r := ScrubData(d);
            && IsSubsequence(r.titles, d.titles)
            && IsSubsequence(r.subTitles, d.subTitles)
            && IsSubsequence(r.bullets, d.bullets)
            && (forall t :: multiset(r.titles)[t] == if IsBlank(t) then 0 else multiset(d.titles)[t])
            && (forall t :: multiset(r.subTitles)[t] == if IsBlank(t) then 0 else multiset(d.subTitles)[t])
            && (forall b :: multiset(r.bullets)[b] == if IsBlank(b.text) then 0 else multiset(d.bullets)[b])
  {
    RemoveAllKeepsOrder(d.titles, IsBlank);
    RemoveAllKeepsOrder(d.subTitles, IsBlank);
    RemoveAllKeepsOrder(d.bullets, IsBlankBullet);
    RemoveAllKeepsCount(d.titles, IsBlank);
    RemoveAllKeepsCount(d.subTitles, IsBlank);
    RemoveAllKeepsCount(d.bullets, IsBlankBullet);
  }

  /** RemoveAll keeps relative order: it works element by element. */
  lemma {:induction false} RemoveAllAppend<T(!new)>(a: seq<T>, b: seq<T>, blank: T -> bool)
    ensures RemoveAll(a + b, blank) == RemoveAll(a, blank) + RemoveAll(b, blank)
  {
    if b == [] {
      assert a + b == a;
    } else {
      var front := b[..|b| - 1];
      assert (a + b)[..|a + b| - 1] == a + front;
      RemoveAllAppend(a, front, blank);
    }
  }

  /** A list with nothing to remove is left as it is. */
  lemma {:induction false} RemoveAllNothingToRemove<T(!new)>(s: seq<T>, blank: T -> bool)
    requires forall i :: 0 <= i < |s| ==> !blank(s[i])
    ensures RemoveAll(s, blank) == s
  {
    if s != [] {
      RemoveAllNothingToRemove(s[..|s| - 1], blank);
    }
  }

  lemma RemoveAllIdempotent<T(!new)>(s: seq<T>, blank: T -> bool)
    ensures RemoveAll(RemoveAll(s, blank), blank) == RemoveAll(s, blank)
  {
    RemoveAllFilters(s, blank);
    RemoveAllNothingToRemove(RemoveAll(s, blank), blank);
  }

  /** Scrubbing a scrubbed slide changes nothing. */
  lemma ScrubIdempotent(d: SlideData)
    ensures ScrubData(ScrubData(d)) == ScrubData(d)
  {
    RemoveAllIdempotent(d.titles, IsBlank);
    RemoveAllIdempotent(d.subTitles, IsBlank);
    RemoveAllIdempotent(d.bullets, IsBlankBullet);
  }

  /** The three RemoveAll calls on one slide. */
  method ScrubSlide(slide: Slide)
    modifies slide
    ensures slide.Snapshot() == ScrubData(old(slide.Snapshot()))
  {
    slide.titles := RemoveAll(slide.titles, IsBlank);
    slide.subTitles := RemoveAll(slide.subTitles, IsBlank);
    slide.bullets := RemoveAll(slide.bullets, IsBlankBullet);
  }

  /** The scrub over every parsed slide.  The same Slide may occur twice in the list; it
      is then scrubbed twice, which changes nothing the second time. */
  method Scrub(slides: seq<Slide>)
    modifies set i | 0 <= i < |slides| :: slides[i]
    ensures forall i :: 0 <= i < |slides| ==> slides[i].Snapshot() == ScrubData(old(slides[i].Snapshot()))
  {
    ghost var before := Snapshots(slides);
    for k := 0 to |slides|
      invariant forall i :: 0 <= i < |slides| ==>
                  slides[i].Snapshot() == if slides[i] in slides[..k] then ScrubData(before[i]) else before[i]
    {
      assert slides[..k + 1] == slides[..k] + [slides[k]];
      ScrubIdempotent(before[k]);
      ScrubSlide(slides[k]);
    }
    assert slides[..|slides|] == slides;
  }

  // ---------------------------------------------------------------------------------
  // GenerateOutput as a trace of effects
  // ---------------------------------------------------------------------------------

  /** The file-system and console calls GenerateOutput makes. */
  datatype Effect =
    | CreateDirectory(path: string)
    | SaveImage(path: string, data: ImageData)
    | WriteAllText(path: string, contents: string)
    | ConsoleWrite(text: string)
    | ConsoleWriteLine(text: string)
    | ReadKey

  /** The effects performed, in order, and the exception that ended the run, if any. */
  datatype Run = Run(effects: seq<Effect>, failure: Option<ProgramError>)

  const EndOfSlideshow := "END OF SLIDESHOW - PRESS ANY KEY TO EXIT"

  /** The images of one slide, saved in order as `{ID}-img{i+1}.jpg`. */
  function SlideImageSaves(d: SlideData, imageDirectory: string, sep: char): (r: seq<Effect>)
    ensures |r| == |d.images|
  {
    seq(|d.images|, i requires 0 <= i < |d.images| =>
      SaveImage(ImageFilePath(imageDirectory, sep, d.id, i), d.images[i].data))
  }

  /** The images of every slide, slide by slide. */
  function ImageSaves(slides: seq<SlideData>, imageDirectory: string, sep: char): seq<Effect>
  {
    if slides == [] then []
    else
      var k := |slides| - 1;
      ImageSaves(slides[..k], imageDirectory, sep) + SlideImageSaves(slides[k], imageDirectory, sep)
  }

  /** The single Markdown text: every slide's rendering, appended in order. */
  function Markdown(slides: seq<SlideData>, imgPath: string): Result<string, FormatError>
  {
    if slides == [] then Ok("")
    else
      var k := |slides| - 1;
      match Markdown(slides[..k], imgPath)
      case Err(e) => Err(e)
      case Ok(text) =>
        match Render(slides[k], imgPath)
        case Err(e) => Err(e)
        case Ok(slideText) => Ok(text + slideText)
  }

  /** Per-slide mode: slide i written to `slide{i+1}.MD`, in order, up to the first slide
      the formatter fails on. */
  function SlideWrites(output: string, slides: seq<SlideData>, imgPath: string, sep: char): Run
  {
    if slides == [] then Run([], None)
    else
      var k := |slides| - 1;
      var before := SlideWrites(output, slides[..k], imgPath, sep);
      if before.failure.Some? then before
      else
        match Render(slides[k], imgPath)
        case Err(e) => Run(before.effects, Some(ConvertFailed(e)))
        case Ok(text) => Run(before.effects + [WriteAllText(SlideFileName(output, sep, k), text)], None)
  }

  /** The directories GenerateOutput creates and the images it saves before writing any
      Markdown: nothing in console mode. */
  function Setup(layout: Layout, slides: seq<SlideData>, sep: char): seq<Effect>
    requires layout.mode != ConsoleMode ==> layout.outputDirectory.Some?
  {
    if layout.mode == ConsoleMode then []
    else
      var outputDirectory := layout.outputDirectory.value;
      var imgOutputDirectory := ImageOutputDirectory(outputDirectory, sep);
      [CreateDirectory(outputDirectory), CreateDirectory(imgOutputDirectory)]
      + ImageSaves(slides, imgOutputDirectory, sep)
  }

  /** The Markdown GenerateOutput emits after the setup: one text to the console or to
      the output file, or one file per slide. */
  function Emit(output: Option<string>, layout: Layout, slides: seq<SlideData>, sep: char): Run
    requires layout.mode == PerSlideMode || layout.mode == SingleFileMode ==> output.Some?
  {
    var imgPath := ImagePath(layout, sep);
    if layout.mode == PerSlideMode then SlideWrites(output.value, slides, imgPath, sep)
    else
      match Markdown(slides, imgPath)
      case Err(e) => Run([], Some(ConvertFailed(e)))
      case Ok(text) =>
        if layout.mode == ConsoleMode then Run([ConsoleWrite(text), ConsoleWriteLine(EndOfSlideshow), ReadKey], None)
        else Run([WriteAllText(output.value, text)], None)
  }

  /** Everything GenerateOutput does with the scrubbed slides. */
  function Plan(output: Option<string>, slides: seq<SlideData>, sep: char): Run
  {
    match ResolveLayout(output, sep)
    case Err(e) => Run([], Some(e))
    case Ok(layout) =>
      var emitted := Emit(output, layout, slides, sep);
      Run(Setup(layout, slides, sep) + emitted.effects, emitted.failure)
  }

  lemma {:induction false} MarkdownPrefixErr(slides: seq<SlideData>, imgPath: string, k: nat)
    requires k <= |slides| && Markdown(slides[..k], imgPath).Err?
    ensures Markdown(slides, imgPath) == Markdown(slides[..k], imgPath)
    decreases |slides| - k
  {
    if k < |slides| {
      var next := slides[..k + 1];
      assert next[..|next| - 1] == slides[..k];
      MarkdownStops(next, imgPath);
      MarkdownPrefixErr(slides, imgPath, k + 1);
    } else {
      assert slides[..k] == slides;
    }
  }

  lemma {:induction false} SlideWritesPrefixFailure(output: string, slides: seq<SlideData>, imgPath: string, sep: char, k: nat)
    requires k <= |slides| && SlideWrites(output, slides[..k], imgPath, sep).failure.Some?
    ensures SlideWrites(output, slides, imgPath, sep) == SlideWrites(output, slides[..k], imgPath, sep)
    decreases |slides| - k
  {
    if k < |slides| {
      var next := slides[..k + 1];
      assert next[..|next| - 1] == slides[..k];
      SlideWritesStops(output, next, imgPath, sep);
      SlideWritesPrefixFailure(output, slides, imgPath, sep, k + 1);
    } else {
      assert slides[..k] == slides;
    }
  }

  lemma MarkdownStops(slides: seq<SlideData>, imgPath: string)
    requires slides != [] && Markdown(slides[..|slides| - 1], imgPath).Err?
    ensures Markdown(slides, imgPath) == Markdown(slides[..|slides| - 1], imgPath)
  {
  }

  lemma SlideWritesStops(output: string, slides: seq<SlideData>, imgPath: string, sep: char)
    requires slides != [] && SlideWrites(output, slides[..|slides| - 1], imgPath, sep).failure.Some?
    ensures SlideWrites(output, slides, imgPath, sep) == SlideWrites(output, slides[..|slides| - 1], imgPath, sep)
  {
  }

  /** The image loop of GenerateOutput. */
  method SaveImages(slides: seq<Slide>, imageDirectory: string, sep: char) returns (effects: seq<Effect>)
    ensures effects == ImageSaves(Snapshots(slides), imageDirectory, sep)
  {
    ghost var data := Snapshots(slides);
    effects := [];
    for k := 0 to |slides|
      invariant effects == ImageSaves(data[..k], imageDirectory, sep)
    {
      var slide := slides[k];
      ghost var before := effects;
      for i := 0 to |slide.images|
        invariant effects == before + SlideImageSaves(data[k], imageDirectory, sep)[..i]
      {
        var fileName := ImageFilePath(imageDirectory, sep, slide.id, i);
        effects := effects + [SaveImage(fileName, slide.images[i].data)];
      }
      assert data[..k + 1][..k] == data[..k];
    }
    assert data[..|slides|] == data;
  }

  /** The Markdown text of every slide, appended in order. */
  method BuildMarkdown(slides: seq<Slide>, imgPath: string) returns (r: Result<string, FormatError>)
    ensures r == Markdown(Snapshots(slides), imgPath)
  {
    ghost var data := Snapshots(slides);
    var markdown := "";
    for k := 0 to |slides|
      invariant Markdown(data[..k], imgPath) == Ok(markdown)
    {
      var text := Convert(slides[k], imgPath);
      MarkdownStep(data, imgPath, k, markdown);
      if text.Err? {
        return Err(text.error);
      }
      markdown := markdown + text.value;
    }
    assert data[..|slides|] == data;
    r := Ok(markdown);
  }

  lemma MarkdownStep(data: seq<SlideData>, imgPath: string, k: nat, markdown: string)
    requires k < |data| && Markdown(data[..k], imgPath) == Ok(markdown)
    ensures Render(data[k], imgPath).Err? ==> Markdown(data, imgPath) == Err(Render(data[k], imgPath).error)
    ensures Render(data[k], imgPath).Ok? ==>
              Markdown(data[..k + 1], imgPath) == Ok(markdown + Render(data[k], imgPath).value)
  {
    assert data[..k + 1][..k] == data[..k];
    if Render(data[k], imgPath).Err? {
      MarkdownPrefixErr(data, imgPath, k + 1);
    }
  }

  /** The per-slide loop of GenerateOutput. */
  method WriteSlides(output: string, slides: seq<Slide>, imgPath: string, sep: char) returns (run: Run)
    ensures run == SlideWrites(output, Snapshots(slides), imgPath, sep)
  {
    ghost var data := Snapshots(slides);
    var effects: seq<Effect> := [];
    for k := 0 to |slides|
      invariant SlideWrites(output, data[..k], imgPath, sep) == Run(effects, None)
    {
      var text := Convert(slides[k], imgPath);
      SlideWritesStep(output, data, imgPath, sep, k, effects);
      if text.Err? {
        return Run(effects, Some(ConvertFailed(text.error)));
      }
      effects := effects + [WriteAllText(SlideFileName(output, sep, k), text.value)];
    }
    assert data[..|slides|] == data;
    run := Run(effects, None);
  }

  lemma SlideWritesStep(output: string, data: seq<SlideData>, imgPath: string, sep: char, k: nat, effects: seq<Effect>)
    requires k < |data| && SlideWrites(output, data[..k], imgPath, sep) == Run(effects, None)
    ensures Render(data[k], imgPath).Err? ==>
              SlideWrites(output, data, imgPath, sep) == Run(effects, Some(ConvertFailed(Render(data[k], imgPath).error)))
    ensures Render(data[k], imgPath).Ok? ==>
              SlideWrites(output, data[..k + 1], imgPath, sep)
              == Run(effects + [WriteAllText(SlideFileName(output, sep, k), Render(data[k], imgPath).value)], None)
  {
    assert data[..k + 1][..k] == data[..k];
    if Render(data[k], imgPath).Err? {
      SlideWritesPrefixFailure(output, data, imgPath, sep, k + 1);
    }
  }

  /** The directories and image files GenerateOutput writes before any Markdown. */
  method SetUpOutput(layout: Layout, slides: seq<Slide>, sep: char) returns (setup: seq<Effect>)
    requires layout.mode != ConsoleMode ==> layout.outputDirectory.Some?
    ensures setup == Setup(layout, Snapshots(slides), sep)
  {
    setup := [];
    if layout.mode != ConsoleMode {
      var outputDirectory := layout.outputDirectory.value;
      var imgOutputDirectory := ImageOutputDirectory(outputDirectory, sep);
      var saves := SaveImages(slides, imgOutputDirectory, sep);
      setup := [CreateDirectory(outputDirectory), CreateDirectory(imgOutputDirectory)] + saves;
    }
  }

  /** The Markdown output of GenerateOutput, after the setup. */
  method EmitMarkdown(output: Option<string>, layout: Layout, slides: seq<Slide>, sep: char) returns (emitted: Run)
    requires layout.mode == PerSlideMode || layout.mode == SingleFileMode ==> output.Some?
    ensures emitted == Emit(output, layout, Snapshots(slides), sep)
  {
    var imgPath := ImagePath(layout, sep);
    if layout.mode == PerSlideMode {
      emitted := WriteSlides(output.value, slides, imgPath, sep);
    } else {
      var markdown := BuildMarkdown(slides, imgPath);
      if markdown.Err? {
        emitted := Run([], Some(ConvertFailed(markdown.error)));
      } else if layout.mode == ConsoleMode {
        emitted := Run([ConsoleWrite(markdown.value), ConsoleWriteLine(EndOfSlideshow), ReadKey], None);
      } else {
        emitted := Run([WriteAllText(output.value, markdown.value)], None);
      }
    }
  }

  /** GenerateOutput: scrubs every slide in place, then saves the images and writes the
      Markdown as the output layout says. */
  method GenerateOutput(output: Option<string>, parsedSlides: seq<Slide>, sep: char) returns (run: Run)
    modifies set i | 0 <= i < |parsedSlides| :: parsedSlides[i]
    ensures forall i :: 0 <= i < |parsedSlides| ==>
              parsedSlides[i].Snapshot() == ScrubData(old(parsedSlides[i].Snapshot()))
    ensures run == Plan(output, Snapshots(parsedSlides), sep)
  {
    Scrub(parsedSlides);
    var layout := ResolveLayout(output, sep);
    if layout.Err? {
      return Run([], Some(layout.error));
    }
    var setup := SetUpOutput(layout.value, parsedSlides, sep);
    var emitted := EmitMarkdown(output, layout.value, parsedSlides, sep);
    run := Run(setup + emitted.effects, emitted.failure);
  }

  // ---------------------------------------------------------------------------------
  // Names and paths
  // ---------------------------------------------------------------------------------

  /** The image prefix is "./img" in console mode, and otherwise "./", the last path
      component of the output directory, and "/img". */
  lemma ImagePathForm(layout: Layout, sep: char)
    ensures layout.outputDirectory.None? ==> ImagePath(layout, sep) == "./img"
    ensures layout.outputDirectory.Some? ==>
              var dir := layout.outputDirectory.value;
              var r := ImagePath(layout, sep);
              |r| >= 6 && r[..2] == "./" && r[|r| - 4..] == "/img"
              && var c := r[2..|r| - 4];
                 |c| <= |dir| && c == dir[|dir| - |c|..] && sep !in c
                 && (|c| == |dir| || dir[|dir| - |c| - 1] == sep)
  {
    if layout.outputDirectory.Some? {
      var lastDir := LastDir(layout.outputDirectory, sep);
      assert lastDir == "/" + lastDir[1..];
      ImagePathAlgebra(lastDir[1..]);
    }
  }

  lemma ImagePathAlgebra(c: string)
    ensures var r := "." + ("/" + c) + "/img";
            |r| >= 6 && r[..2] == "./" && r[|r| - 4..] == "/img" && r[2..|r| - 4] == c
  {
    var r := "." + ("/" + c) + "/img";
    assert r == "./" + c + "/img";
  }

  /** Image file names are injective: the Guid and the index can be read back. */
  lemma ImageFileNameInjective(id1: Guid, i1: nat, id2: Guid, i2: nat)
    requires ImageFileName(id1, i1) == ImageFileName(id2, i2)
    ensures id1 == id2 && i1 == i2
  {
    var n1, n2 := ImageFileName(id1, i1), ImageFileName(id2, i2);
    assert n1[..36] == GuidToString(id1);
    assert n2[..36] == GuidToString(id2);
    GuidToStringInjective(id1, id2);
    assert n1[40..|n1| - 4] == NatToString(i1 + 1);
    assert n2[40..|n2| - 4] == NatToString(i2 + 1);
    NatToStringInjective(i1 + 1, i2 + 1);
  }

  /** Given slides with distinct Guids, no two images are saved to the same file. */
  lemma ImageFilesDistinct(slides: seq<SlideData>, imageDirectory: string, sep: char,
                           k1: nat, i1: nat, k2: nat, i2: nat)
    requires forall a, b :: 0 <= a < b < |slides| ==> slides[a].id != slides[b].id
    requires k1 < |slides| && i1 < |slides[k1].images| && k2 < |slides| && i2 < |slides[k2].images|
    requires (k1, i1) != (k2, i2)
    ensures ImageFilePath(imageDirectory, sep, slides[k1].id, i1) != ImageFilePath(imageDirectory, sep, slides[k2].id, i2)
  {
    var p1 := ImageFilePath(imageDirectory, sep, slides[k1].id, i1);
    var p2 := ImageFilePath(imageDirectory, sep, slides[k2].id, i2);
    if p1 == p2 {
      var n := |imageDirectory| + 1;
      assert p1[n..] == ImageFileName(slides[k1].id, i1);
      assert p2[n..] == ImageFileName(slides[k2].id, i2);
      ImageFileNameInjective(slides[k1].id, i1, slides[k2].id, i2);
      assert false;
    }
  }

  /** Per-slide file names are injective: no two slides are written to the same file. */
  lemma SlideFileNameInjective(output: string, sep: char, i: nat, j: nat)
    requires SlideFileName(output, sep, i) == SlideFileName(output, sep, j)
    ensures i == j
  {
    var a, b := SlideFileName(output, sep, i), SlideFileName(output, sep, j);
    var n := |output| + 6;
    assert a[n..|a| - 3] == NatToString(i + 1);
    assert b[n..|b| - 3] == NatToString(j + 1);
    NatToStringInjective(i + 1, j + 1);
  }

  /** The directory that contains `dir`, by '/' separators, with its trailing '/' ("" for
      the current directory). */
  function ParentDirectory(dir: string): string
  {
    dir[..LastIndexOf(dir, '/') + 1]
  }

  /** A "./"-relative path resolved against a directory written with its trailing '/'. */
  function ResolveRelative(base: string, path: string): string
    requires |path| >= 2
  {
    base + path[2..]
  }

  /** The formatter refers to image i of a slide by the very name GenerateOutput saves it
      under; with '/' as the separator, that reference, resolved against the directory
      containing the output directory, is the path the image was saved to. */
  lemma ReferencedImageIsSaved(layout: Layout, id: Guid, i: nat)
    requires layout.outputDirectory.Some?
    ensures var imgPath := ImagePath(layout, '/');
            ImageReference(imgPath, id, i) == "![Image](" + imgPath + "/" + ImageFileName(id, i) + ")"
    ensures var dir := layout.outputDirectory.value;
            var target := ImagePath(layout, '/') + "/" + ImageFileName(id, i);
            ResolveRelative(ParentDirectory(dir), target)
            == ImageFilePath(ImageOutputDirectory(dir, '/'), '/', id, i)
  {
    var dir := layout.outputDirectory.value;
    ReferenceAlgebra(ImagePath(layout, '/'), GuidToString(id), NatToString(i + 1));
    ResolvesToSavedPath(dir, ImageFileName(id, i));
  }

  lemma ReferenceAlgebra(path: string, guid: string, number: string)
    ensures "![Image](" + path + "/" + guid + "-img" + number + ".jpg)"
            == "![Image](" + path + "/" + (guid + "-img" + number + ".jpg") + ")"
  {
    var front := "![Image](" + path + "/";
    assert ".jpg)" == ".jpg" + ")";
    assert front + guid + "-img" + number + ".jpg)" == front + (guid + "-img" + number + ".jpg") + ")";
  }

  lemma ResolvesToSavedPath(dir: string, name: string)
    ensures ResolveRelative(ParentDirectory(dir), "." + LastDir(Some(dir), '/') + "/img" + "/" + name)
            == dir + ['/'] + "img" + ['/'] + name
  {
    var k := LastIndexOf(dir, '/');
    var parent, last := dir[..k + 1], dir[k + 1..];
    assert dir == parent + last;
    assert LastDir(Some(dir), '/') == "/" + last;
    PathAlgebra(parent, last, name);
  }

  /** The string algebra behind ResolvesToSavedPath, with the directory already split. */
  lemma PathAlgebra(parent: string, last: string, name: string)
    ensures parent + ("." + ("/" + last) + "/img" + "/" + name)[2..]
            == parent + last + ['/'] + "img" + ['/'] + name
  {
    var tail := "/img/" + name;
    assert "/img" + "/" + name == tail;
    assert parent + last + ['/'] + "img" + ['/'] + name == parent + last + tail;
    assert "." + ("/" + last) == "./" + last;
    AppendAssoc("./" + last, "/img", "/" + name);
    AppendAssoc("./", last, tail);
    DropPrefix("./", last + tail);
    AppendAssoc(parent, last, tail);
  }

  lemma DropPrefix(a: string, b: string)
    ensures (a + b)[|a|..] == b
  {
  }

  // ---------------------------------------------------------------------------------
  // What GenerateOutput writes
  // ---------------------------------------------------------------------------------

  /** The text Convert gives for a slide it can render. */
  function RenderedText(d: SlideData, imgPath: string): string
  {
    match Render(d, imgPath)
    case Ok(text) => text
    case Err(_) => ""
  }

  /** The rendering of every slide, in order. */
  function RenderedTexts(slides: seq<SlideData>, imgPath: string): (r: seq<string>)
    ensures |r| == |slides|
  {
    if slides == [] then []
    else RenderedTexts(slides[..|slides| - 1], imgPath) + [RenderedText(slides[|slides| - 1], imgPath)]
  }

  /** Every slide can be rendered: no bullet anywhere has a negative Level. */
  predicate AllIndentable(slides: seq<SlideData>)
  {
    forall i :: 0 <= i < |slides| ==> Indentable(slides[i].bullets)
  }

  lemma AllIndentableSnoc(slides: seq<SlideData>)
    requires slides != []
    ensures AllIndentable(slides)
        <==> AllIndentable(slides[..|slides| - 1]) && Indentable(slides[|slides| - 1].bullets)
  {
    var front := slides[..|slides| - 1];
    assert forall i :: 0 <= i < |front| ==> front[i] == slides[i];
  }

  /** Render fails exactly on a negative Level. */
  lemma RenderOk(data: SlideData, imgPath: string)
    ensures Render(data, imgPath).Ok? <==> Indentable(data.bullets)
  {
    BulletBlockFailsIff(data.bullets);
  }

  lemma ConcatSnoc(parts: seq<string>, part: string)
    ensures Concat(parts + [part]) == Concat(parts) + part
  {
    assert (parts + [part])[..|parts|] == parts;
  }

  /** The single Markdown text exists exactly when every slide can be rendered, and is
      then every slide's rendering, in order. */
  lemma {:induction false} MarkdownCharacterization(slides: seq<SlideData>, imgPath: string)
    ensures Markdown(slides, imgPath).Ok? <==> AllIndentable(slides)
    ensures Markdown(slides, imgPath).Ok? ==> Markdown(slides, imgPath).value == Concat(RenderedTexts(slides, imgPath))
  {
    if slides != [] {
      var k := |slides| - 1;
      MarkdownCharacterization(slides[..k], imgPath);
      AllIndentableSnoc(slides);
      RenderOk(slides[k], imgPath);
      ConcatSnoc(RenderedTexts(slides[..k], imgPath), RenderedText(slides[k], imgPath));
    }
  }

  /** The first n slides written to `slide1.MD` ... `slide{n}.MD`, in order. */
  predicate WritesSlides(effects: seq<Effect>, output: string, slides: seq<SlideData>, imgPath: string, sep: char, n: nat)
    requires n <= |slides|
  {
    |effects| == n
    && forall i :: 0 <= i < n ==>
         Indentable(slides[i].bullets)
         && effects[i] == WriteAllText(SlideFileName(output, sep, i), RenderedText(slides[i], imgPath))
  }

  lemma WritesSlidesPrefix(effects: seq<Effect>, output: string, slides: seq<SlideData>, imgPath: string, sep: char, n: nat, m: nat)
    requires n <= m <= |slides| && WritesSlides(effects, output, slides[..m], imgPath, sep, n)
    ensures WritesSlides(effects, output, slides, imgPath, sep, n)
  {
    assert forall i :: 0 <= i < n ==> slides[..m][i] == slides[i];
  }

  lemma WritesSlidesSnoc(effects: seq<Effect>, output: string, slides: seq<SlideData>, imgPath: string, sep: char, n: nat)
    requires n < |slides| && WritesSlides(effects, output, slides, imgPath, sep, n) && Indentable(slides[n].bullets)
    ensures WritesSlides(effects + [WriteAllText(SlideFileName(output, sep, n), RenderedText(slides[n], imgPath))],
                         output, slides, imgPath, sep, n + 1)
  {
  }

  /** Per-slide mode writes slide i to `slide{i+1}.MD` with its rendering, in order; it
      succeeds exactly when every slide can be rendered, and otherwise stops at the first
      slide that cannot, having written the ones before it. */
  lemma {:induction false} SlideWritesCharacterization(output: string, slides: seq<SlideData>, imgPath: string, sep: char)
    ensures SlideWrites(output, slides, imgPath, sep).failure.None? <==> AllIndentable(slides)
    ensures var run := SlideWrites(output, slides, imgPath, sep);
            run.failure.None? ==> WritesSlides(run.effects, output, slides, imgPath, sep, |slides|)
    ensures var run := SlideWrites(output, slides, imgPath, sep);
            run.failure.Some? ==>
              exists k :: 0 <= k < |slides| && !Indentable(slides[k].bullets) && Render(slides[k], imgPath).Err?
                && run.failure == Some(ConvertFailed(Render(slides[k], imgPath).error))
                && WritesSlides(run.effects, output, slides, imgPath, sep, k)
  {
    if slides != [] {
      var n := |slides| - 1;
      var front := slides[..n];
      SlideWritesCharacterization(output, front, imgPath, sep);
      AllIndentableSnoc(slides);
      RenderOk(slides[n], imgPath);
      var before := SlideWrites(output, front, imgPath, sep);
      if before.failure.Some? {
        var k :| 0 <= k < n && !Indentable(front[k].bullets) && Render(front[k], imgPath).Err?
                 && before.failure == Some(ConvertFailed(Render(front[k], imgPath).error))
                 && WritesSlides(before.effects, output, front, imgPath, sep, k);
        assert front[k] == slides[k];
        WritesSlidesPrefix(before.effects, output, slides, imgPath, sep, k, n);
      } else {
        WritesSlidesPrefix(before.effects, output, slides, imgPath, sep, n, n);
        if Indentable(slides[n].bullets) {
          WritesSlidesSnoc(before.effects, output, slides, imgPath, sep, n);
        }
      }
    }
  }

  /** The images saved are exactly one per image of every slide, under the name derived
      from the slide's Guid and the image's position. */
  lemma {:induction false} ImageSavesMembership(slides: seq<SlideData>, imageDirectory: string, sep: char, e: Effect)
    ensures e in ImageSaves(slides, imageDirectory, sep)
        <==> exists k, i :: 0 <= k < |slides| && 0 <= i < |slides[k].images|
               && e == SaveImage(ImageFilePath(imageDirectory, sep, slides[k].id, i), slides[k].images[i].data)
  {
    if slides != [] {
      var n := |slides| - 1;
      ImageSavesMembership(slides[..n], imageDirectory, sep, e);
      assert forall k :: 0 <= k < n ==> slides[..n][k] == slides[k];
      var own := SlideImageSaves(slides[n], imageDirectory, sep);
      if e in own {
        var i :| 0 <= i < |own| && own[i] == e;
        assert 0 <= n < |slides| && 0 <= i < |slides[n].images|
               && e == SaveImage(ImageFilePath(imageDirectory, sep, slides[n].id, i), slides[n].images[i].data);
      }
      if exists k, i :: 0 <= k < |slides| && 0 <= i < |slides[k].images|
           && e == SaveImage(ImageFilePath(imageDirectory, sep, slides[k].id, i), slides[k].images[i].data) {
        var k, i :| 0 <= k < |slides| && 0 <= i < |slides[k].images|
           && e == SaveImage(ImageFilePath(imageDirectory, sep, slides[k].id, i), slides[k].images[i].data);
        if k == n {
          assert own[i] == e;
        }
      }
    }
  }

  /** Before any Markdown, GenerateOutput only creates directories and saves images. */
  lemma {:induction false} SetupIsDirectoriesAndImages(layout: Layout, slides: seq<SlideData>, sep: char)
    requires layout.mode != ConsoleMode ==> layout.outputDirectory.Some?
    ensures var setup := Setup(layout, slides, sep);
            forall j :: 0 <= j < |setup| ==> setup[j].CreateDirectory? || setup[j].SaveImage?
  {
    if layout.mode != ConsoleMode {
      var imgOutputDirectory := ImageOutputDirectory(layout.outputDirectory.value, sep);
      var setup := Setup(layout, slides, sep);
      forall j | 2 <= j < |setup| ensures setup[j].SaveImage? {
        assert setup[j] in ImageSaves(slides, imgOutputDirectory, sep);
        ImageSavesMembership(slides, imgOutputDirectory, sep, setup[j]);
      }
    }
  }

  lemma PlanUnfold(output: Option<string>, slides: seq<SlideData>, sep: char)
    requires ResolveLayout(output, sep).Ok?
    ensures var layout := ResolveLayout(output, sep).value;
            var emitted := Emit(output, layout, slides, sep);
            Plan(output, slides, sep) == Run(Setup(layout, slides, sep) + emitted.effects, emitted.failure)
  {
  }

  /** Console mode touches no file: it prints the Markdown of every slide, in order, then
      the closing line, and waits for a key; if a slide cannot be rendered, nothing at all
      is printed. */
  lemma ConsoleOutput(slides: seq<SlideData>, sep: char)
    ensures var run := Plan(None, slides, sep);
            forall j :: 0 <= j < |run.effects| ==>
              run.effects[j].ConsoleWrite? || run.effects[j].ConsoleWriteLine? || run.effects[j].ReadKey?
    ensures Plan(None, slides, sep).failure.None? <==> AllIndentable(slides)
    ensures AllIndentable(slides) ==>
              Plan(None, slides, sep).effects
              == [ConsoleWrite(Concat(RenderedTexts(slides, "./img"))), ConsoleWriteLine(EndOfSlideshow), ReadKey]
    ensures !AllIndentable(slides) ==> Plan(None, slides, sep).effects == []
  {
    ImagePathForm(Layout(ConsoleMode, None), sep);
    MarkdownCharacterization(slides, "./img");
    PlanUnfold(None, slides, sep);
  }

  /** Single-file mode writes exactly one text file, the output path itself, last of all
      and only when every slide can be rendered; it holds every slide's Markdown, in order,
      with images referenced under "./{last directory}/img". */
  lemma SingleFileOutput(output: string, slides: seq<SlideData>, sep: char)
    requires EndsWithIgnoreCase(output, ".MD") && sep in output
    ensures ResolveLayout(Some(output), sep).Ok?
    ensures var run := Plan(Some(output), slides, sep);
            var layout := ResolveLayout(Some(output), sep).value;
            && layout.mode == SingleFileMode
            && (run.failure.None? <==> AllIndentable(slides))
            && (run.failure.None? ==>
                  |run.effects| >= 3
                  && run.effects[|run.effects| - 1]
                     == WriteAllText(output, Concat(RenderedTexts(slides, ImagePath(layout, sep))))
                  && forall j :: 0 <= j < |run.effects| - 1 ==> run.effects[j].CreateDirectory? || run.effects[j].SaveImage?)
            && (run.failure.Some? ==>
                  forall j :: 0 <= j < |run.effects| ==> run.effects[j].CreateDirectory? || run.effects[j].SaveImage?)
  {
    var layout := ResolveLayout(Some(output), sep).value;
    var imgPath := ImagePath(layout, sep);
    var setup := Setup(layout, slides, sep);
    SingleFilePlan(output, slides, sep);
    MarkdownCharacterization(slides, imgPath);
    SetupIsDirectoriesAndImages(layout, slides, sep);
    var markdown := Markdown(slides, imgPath);
    if markdown.Ok? {
      AppendWrite(setup, WriteAllText(output, markdown.value));
    }
  }

  /** In single-file mode the plan is the setup followed by one write of the whole
      Markdown, or the setup alone when a slide cannot be rendered. */
  lemma SingleFilePlan(output: string, slides: seq<SlideData>, sep: char)
    requires EndsWithIgnoreCase(output, ".MD") && sep in output
    ensures ResolveLayout(Some(output), sep).Ok?
    ensures var layout := ResolveLayout(Some(output), sep).value;
            var markdown := Markdown(slides, ImagePath(layout, sep));
            && layout.mode == SingleFileMode
            && layout.outputDirectory.Some?
            && Plan(Some(output), slides, sep)
               == match markdown
                  case Ok(text) => Run(Setup(layout, slides, sep) + [WriteAllText(output, text)], None)
                  case Err(e) => Run(Setup(layout, slides, sep), Some(ConvertFailed(e)))
  {
    var layout := ResolveLayout(Some(output), sep).value;
    PlanUnfold(Some(output), slides, sep);
    SingleFileEmit(output, layout, slides, sep);
  }

  lemma SingleFileEmit(output: string, layout: Layout, slides: seq<SlideData>, sep: char)
    requires layout.mode == SingleFileMode
    ensures Emit(Some(output), layout, slides, sep)
            == match Markdown(slides, ImagePath(layout, sep))
               case Ok(text) => Run([WriteAllText(output, text)], None)
               case Err(e) => Run([], Some(ConvertFailed(e)))
  {
  }

  lemma AppendWrite(setup: seq<Effect>, write: Effect)
    requires |setup| >= 2
    requires forall j :: 0 <= j < |setup| ==> setup[j].CreateDirectory? || setup[j].SaveImage?
    ensures var effects := setup + [write];
            && |effects| >= 3
            && effects[|effects| - 1] == write
            && forall j :: 0 <= j < |effects| - 1 ==> effects[j].CreateDirectory? || effects[j].SaveImage?
  {
  }

  /** In per-slide mode the plan is the setup followed by the slide writes. */
  lemma PerSlidePlan(output: string, slides: seq<SlideData>, sep: char)
    requires !EndsWithIgnoreCase(output, ".MD")
    ensures var layout := Layout(PerSlideMode, Some(output));
            var writes := SlideWrites(output, slides, ImagePath(layout, sep), sep);
            Plan(Some(output), slides, sep) == Run(Setup(layout, slides, sep) + writes.effects, writes.failure)
  {
    PlanUnfold(Some(output), slides, sep);
  }

  lemma SetupStart(outputDirectory: string, slides: seq<SlideData>, sep: char)
    ensures var setup := Setup(Layout(PerSlideMode, Some(outputDirectory)), slides, sep);
            |setup| >= 2
            && setup[..2] == [CreateDirectory(outputDirectory), CreateDirectory(ImageOutputDirectory(outputDirectory, sep))]
  {
  }

  lemma AppendWrites(setup: seq<Effect>, writes: seq<Effect>, output: string, slides: seq<SlideData>, imgPath: string, sep: char)
    requires |setup| >= 2
    requires forall j :: 0 <= j < |setup| ==> setup[j].CreateDirectory? || setup[j].SaveImage?
    requires WritesSlides(writes, output, slides, imgPath, sep, |slides|)
    ensures var effects := setup + writes;
            var m := |effects| - |slides|;
            && m == |setup|
            && effects[..2] == setup[..2]
            && (forall j :: 0 <= j < m ==> effects[j].CreateDirectory? || effects[j].SaveImage?)
            && WritesSlides(effects[m..], output, slides, imgPath, sep, |slides|)
  {
    var effects := setup + writes;
    assert effects[|setup|..] == writes;
  }

  /** Per-slide mode creates the output directory and its "img" directory, saves the
      images, then writes slide i, and only slide i, to `{output}{sep}slide{i+1}.MD`; it
      succeeds exactly when every slide can be rendered. */
  lemma PerSlideOutput(output: string, slides: seq<SlideData>, sep: char)
    requires !EndsWithIgnoreCase(output, ".MD")
    ensures var run := Plan(Some(output), slides, sep);
            var imgPath := ImagePath(Layout(PerSlideMode, Some(output)), sep);
            && (run.failure.None? <==> AllIndentable(slides))
            && (run.failure.None? ==>
                  var m := |run.effects| - |slides|;
                  && m >= 2
                  && run.effects[..2] == [CreateDirectory(output), CreateDirectory(ImageOutputDirectory(output, sep))]
                  && (forall j :: 0 <= j < m ==> run.effects[j].CreateDirectory? || run.effects[j].SaveImage?)
                  && WritesSlides(run.effects[m..], output, slides, imgPath, sep, |slides|))
  {
    var layout := Layout(PerSlideMode, Some(output));
    var imgPath := ImagePath(layout, sep);
    var setup := Setup(layout, slides, sep);
    var writes := SlideWrites(output, slides, imgPath, sep);
    PerSlidePlan(output, slides, sep);
    SlideWritesCharacterization(output, slides, imgPath, sep);
    SetupIsDirectoriesAndImages(layout, slides, sep);
    SetupStart(output, slides, sep);
    if writes.failure.None? {
      AppendWrites(setup, writes.effects, output, slides, imgPath, sep);
    }
  }
}
