/**
 * RevealJsMarkdownFormatter.Convert: renders one slide as reveal.js Markdown.
 *
 * Render is the value Convert returns, written as the sequence of appends the
 * StringBuilder receives; SlideLines is the line grammar of the output, stated on its
 * own; RenderIsLineGrammar connects the two.
 */
module Formats {
  import opened Wrappers
  import opened Strings
  import opened Model

  /** `new string(' ', n)` throws ArgumentOutOfRangeException when n is negative. */
  datatype FormatError = NegativeIndent(level: int)

  function Spaces(n: nat): (r: string)
    ensures |r| == n
    ensures forall i :: 0 <= i < n ==> r[i] == ' '
  {
    seq(n, i => ' ')
  }

  /** What the loop over Titles (marker "# ") or over SubTitles (marker "## ") appends:
      one line per heading, in order. */
  function HeadingBlock(marker: string, headings: seq<string>): string
  {
    if headings == [] then ""
    else HeadingBlock(marker, headings[..|headings| - 1]) + (marker + headings[|headings| - 1] + "\n")
  }

  /** What the loop over Bullets appends, or the exception of the first bullet whose
      indentation is negative. */
  function BulletBlock(bullets: seq<Bullet>): Result<string, FormatError>
  {
    if bullets == [] then Ok("")
    else
      var b := bullets[|bullets| - 1];
      match BulletBlock(bullets[..|bullets| - 1])
      case Err(e) => Err(e)
      case Ok(text) =>
        if b.level * 2 < 0 then Err(NegativeIndent(b.level))
        else Ok(text + (Spaces(b.level * 2) + "* " + b.text + "\n"))
  }

  /** What the loop over the first n images appends. */
  function ImageBlock(resourcePath: string, id: Guid, n: nat): string
  {
    if n == 0 then ""
    else ImageBlock(resourcePath, id, n - 1)
         + ("![Image](" + resourcePath + "/" + GuidToString(id) + "-img" + NatToString(n) + ".jpg)\n")
  }

  function NotesBlock(notes: Option<string>): string
  {
    if IsNullOrWhiteSpace(notes) then "" else "\n" + ("Notes: " + notes.value + "\n")
  }

  /** The value Convert(data, resourcePath) returns, or the exception it throws. */
  function Render(data: SlideData, resourcePath: string): Result<string, FormatError>
  {
    match BulletBlock(data.bullets)
    case Err(e) => Err(e)
    case Ok(bullets) =>
      Ok(HeadingBlock("# ", data.titles) + HeadingBlock("## ", data.subTitles)
         + (if |data.bullets| > 0 then "\n" else "") + bullets
         + (if |data.images| > 0 then "\n" else "") + ImageBlock(resourcePath, data.id, |data.images|)
         + NotesBlock(data.notes)
         + "\n\n\n")
  }

  /** Outputs the slide as Markdown, appending to a StringBuilder step by step. */
  method Convert(data: Slide, resourcePath: string) returns (r: Result<string, FormatError>)
    ensures r == Render(data.Snapshot(), resourcePath)
  {
    var titles, subTitles, bullets, images, notes, id :=
      data.titles, data.subTitles, data.bullets, data.images, data.notes, data.id;
    var output := "";

    for i := 0 to |titles|
      invariant output == HeadingBlock("# ", titles[..i])
    {
      assert titles[..i + 1][..i] == titles[..i];
      var line := "# " + titles[i] + "\n";
      output := output + line;
    }
    assert titles[..|titles|] == titles;
    ghost var titleBlock := output;

    for i := 0 to |subTitles|
      invariant output == titleBlock + HeadingBlock("## ", subTitles[..i])
    {
      assert subTitles[..i + 1][..i] == subTitles[..i];
      var line := "## " + subTitles[i] + "\n";
      AppendAssoc(titleBlock, HeadingBlock("## ", subTitles[..i]), line);
      output := output + line;
    }
    assert subTitles[..|subTitles|] == subTitles;

    ghost var headings := output;

    if |bullets| > 0 {
      output := output + "\n";
    }
    var withBullets := AppendBullets(output, bullets);
    if withBullets.Err? {
      return Err(withBullets.error);
    }
    output := withBullets.value;
    ghost var bulletBlock := BulletBlock(bullets).value;
    assert output == headings + (if |bullets| > 0 then "\n" else "") + bulletBlock;

    if |images| > 0 {
      output := output + "\n";
    }
    output := AppendImages(output, resourcePath, id, |images|);
    assert output == headings + (if |bullets| > 0 then "\n" else "") + bulletBlock
                     + (if |images| > 0 then "\n" else "") + ImageBlock(resourcePath, id, |images|);

    ghost var beforeNotes := output;
    if !IsNullOrWhiteSpace(notes) {
      output := output + "\n";
      var line := "Notes: " + notes.value + "\n";
      AppendAssoc(beforeNotes, "\n", line);
      output := output + line;
    }
    assert output == beforeNotes + NotesBlock(notes);
    output := output + "\n\n\n";

    RenderUnfold(data.Snapshot(), resourcePath, bulletBlock);
    return Ok(output);
  }

  /** The loop over Bullets: appends each bullet's line, or stops at the first bullet
      whose indentation is negative. */
  method AppendBullets(output: string, bullets: seq<Bullet>) returns (r: Result<string, FormatError>)
    ensures BulletBlock(bullets).Err? ==> r == Err(BulletBlock(bullets).error)
    ensures BulletBlock(bullets).Ok? ==> r == Ok(output + BulletBlock(bullets).value)
  {
    var text := output;
    for i := 0 to |bullets|
      invariant BulletBlock(bullets[..i]).Ok?
      invariant text == output + BulletBlock(bullets[..i]).value
    {
      var bullet := bullets[i];
      assert bullets[..i + 1][..i] == bullets[..i];
      if bullet.level * 2 < 0 {
        assert BulletBlock(bullets[..i + 1]) == Err(NegativeIndent(bullet.level));
        BulletBlockPrefixErr(bullets, i + 1);
        return Err(NegativeIndent(bullet.level));
      }
      var line := Spaces(bullet.level * 2) + "* " + bullet.text + "\n";
      AppendAssoc(output, BulletBlock(bullets[..i]).value, line);
      text := text + line;
    }
    assert bullets[..|bullets|] == bullets;
    return Ok(text);
  }

  /** The loop over the first n images: appends one reference line per image. */
  method AppendImages(output: string, resourcePath: string, id: Guid, n: nat) returns (r: string)
    ensures r == output + ImageBlock(resourcePath, id, n)
  {
    r := output;
    for i := 0 to n
      invariant r == output + ImageBlock(resourcePath, id, i)
    {
      var line := "![Image](" + resourcePath + "/" + GuidToString(id) + "-img" + NatToString(i + 1) + ".jpg)\n";
      AppendAssoc(output, ImageBlock(resourcePath, id, i), line);
      r := r + line;
    }
  }

  lemma AppendAssoc(a: string, b: string, c: string)
    ensures a + b + c == a + (b + c)
  {
  }

  lemma RenderUnfold(data: SlideData, resourcePath: string, bulletBlock: string)
    requires BulletBlock(data.bullets) == Ok(bulletBlock)
    ensures Render(data, resourcePath)
         == Ok(HeadingBlock("# ", data.titles) + HeadingBlock("## ", data.subTitles)
               + (if |data.bullets| > 0 then "\n" else "") + bulletBlock
               + (if |data.images| > 0 then "\n" else "") + ImageBlock(resourcePath, data.id, |data.images|)
               + NotesBlock(data.notes) + "\n\n\n")
  {
  }

  /** An exception while rendering the first k bullets is the exception of all of them. */
  lemma {:induction false} BulletBlockPrefixErr(bullets: seq<Bullet>, k: nat)
    requires k <= |bullets|
    requires BulletBlock(bullets[..k]).Err?
    ensures BulletBlock(bullets) == BulletBlock(bullets[..k])
  {
    if k == |bullets| {
      assert bullets[..k] == bullets;
    } else {
      var n := |bullets|;
      var front := bullets[..n - 1];
      assert front[..k] == bullets[..k];
      BulletBlockPrefixErr(front, k);
      assert BulletBlock(bullets) == BulletBlock(front);
    }
  }

  // ---------------------------------------------------------------------------------
  // The line grammar of the output
  // ---------------------------------------------------------------------------------

  /** Every bullet can be indented: no Level is negative. */
  predicate Indentable(bullets: seq<Bullet>)
  {
    forall i :: 0 <= i < |bullets| ==> bullets[i].level >= 0
  }

  /** The reference to image i (zero-based) of slide `id`: one-based, positional, and
      always `.jpg` whatever the image's content type. */
  function ImageReference(resourcePath: string, id: Guid, i: nat): string
  {
    "![Image](" + resourcePath + "/" + GuidToString(id) + "-img" + NatToString(i + 1) + ".jpg)"
  }

  function BulletLine(b: Bullet): string
    requires b.level >= 0
  {
    Spaces(2 * b.level) + "* " + b.text
  }

  function HeadingLines(marker: string, headings: seq<string>): (lines: seq<string>)
    ensures |lines| == |headings|
  {
    seq(|headings|, i requires 0 <= i < |headings| => marker + headings[i])
  }

  function BulletLines(bullets: seq<Bullet>): (lines: seq<string>)
    requires Indentable(bullets)
    ensures |lines| == |bullets|
  {
    seq(|bullets|, i requires 0 <= i < |bullets| => BulletLine(bullets[i]))
  }

  function ImageLines(resourcePath: string, id: Guid, n: nat): (lines: seq<string>)
    ensures |lines| == n
  {
    seq(n, i requires 0 <= i < n => ImageReference(resourcePath, id, i))
  }

  function NotesLines(notes: Option<string>): seq<string>
  {
    if IsNullOrWhiteSpace(notes) then [] else ["", "Notes: " + notes.value]
  }

  /** A blank separator line, present when the block it precedes is not empty. */
  function Separator(present: bool): seq<string>
  {
    if present then [""] else []
  }

  /** The lines of a rendered slide, each of which the output ends with "\n":
      a "# " line per title, a "## " line per subtitle, a blank line and a "* " line per
      bullet when there are bullets, a blank line and an image reference per image when
      there are images, a blank line and a "Notes: " line when the notes are not blank,
      and three blank lines. */
  function SlideLines(data: SlideData, resourcePath: string): (lines: seq<string>)
    requires Indentable(data.bullets)
  {
    HeadingLines("# ", data.titles) + HeadingLines("## ", data.subTitles)
    + Separator(|data.bullets| > 0) + BulletLines(data.bullets)
    + Separator(|data.images| > 0) + ImageLines(resourcePath, data.id, |data.images|)
    + NotesLines(data.notes)
    + ["", "", ""]
  }

  lemma {:induction false} HeadingBlockLines(marker: string, headings: seq<string>)
    ensures HeadingBlock(marker, headings) == Unlines(HeadingLines(marker, headings))
  {
    if headings != [] {
      var n := |headings|;
      HeadingBlockLines(marker, headings[..n - 1]);
      assert HeadingLines(marker, headings)[..n - 1] == HeadingLines(marker, headings[..n - 1]);
    }
  }

  lemma {:induction false} BulletBlockLines(bullets: seq<Bullet>)
    requires Indentable(bullets)
    ensures BulletBlock(bullets) == Ok(Unlines(BulletLines(bullets)))
  {
    if bullets != [] {
      var n := |bullets|;
      var front := bullets[..n - 1];
      assert Indentable(front);
      BulletBlockLines(front);
      assert BulletLines(bullets)[..n - 1] == BulletLines(front);
      var b := bullets[n - 1];
      assert b.level >= 0;
      assert BulletLines(bullets)[n - 1] == Spaces(b.level * 2) + "* " + b.text;
      AppendAssoc(Unlines(BulletLines(front)), BulletLines(bullets)[n - 1], "\n");
    }
  }

  lemma {:induction false} ImageBlockLines(resourcePath: string, id: Guid, n: nat)
    ensures ImageBlock(resourcePath, id, n) == Unlines(ImageLines(resourcePath, id, n))
  {
    if n > 0 {
      ImageBlockLines(resourcePath, id, n - 1);
      assert ImageLines(resourcePath, id, n)[..n - 1] == ImageLines(resourcePath, id, n - 1);
    }
  }

  /** The rendering fails exactly when some bullet has a negative Level. */
  lemma {:induction false} BulletBlockFailsIff(bullets: seq<Bullet>)
    ensures BulletBlock(bullets).Err? <==> !Indentable(bullets)
  {
    if bullets != [] {
      var n := |bullets|;
      BulletBlockFailsIff(bullets[..n - 1]);
      assert forall i :: 0 <= i < n - 1 ==> bullets[..n - 1][i] == bullets[i];
    }
  }

  /** Convert throws exactly when a bullet's Level is negative. */
  lemma RenderFailsIff(data: SlideData, resourcePath: string)
    ensures Render(data, resourcePath).Err? <==> exists i :: 0 <= i < |data.bullets| && data.bullets[i].level < 0
  {
    BulletBlockFailsIff(data.bullets);
  }

  /** Otherwise the output is exactly the line grammar: each line of SlideLines followed
      by "\n", in order. */
  lemma UnlinesOne(line: string)
    ensures Unlines([line]) == line + "\n"
  {
    assert [line][..0] == [];
  }

  lemma SeparatorLine(present: bool)
    ensures Unlines(Separator(present)) == if present then "\n" else ""
  {
    if present {
      UnlinesOne("");
    }
  }

  lemma NotesLine(notes: Option<string>)
    ensures Unlines(NotesLines(notes)) == NotesBlock(notes)
  {
    if !IsNullOrWhiteSpace(notes) {
      var line := "Notes: " + notes.value;
      UnlinesOne("");
      UnlinesOne(line);
      UnlinesAppend([""], [line]);
      assert [""] + [line] == NotesLines(notes);
    }
  }

  lemma TrailerLines()
    ensures Unlines(["", "", ""]) == "\n\n\n"
  {
    UnlinesOne("");
    UnlinesAppend([""], [""]);
    UnlinesAppend(["", ""], [""]);
    assert [""] + [""] == ["", ""];
    assert ["", ""] + [""] == ["", "", ""];
  }

  lemma RenderIsLineGrammar(data: SlideData, resourcePath: string)
    requires Indentable(data.bullets)
    ensures Render(data, resourcePath) == Ok(Unlines(SlideLines(data, resourcePath)))
  {
    var t, s := HeadingLines("# ", data.titles), HeadingLines("## ", data.subTitles);
    var bsep, b := Separator(|data.bullets| > 0), BulletLines(data.bullets);
    var isep, im := Separator(|data.images| > 0), ImageLines(resourcePath, data.id, |data.images|);
    var nt, tr := NotesLines(data.notes), ["", "", ""];
    HeadingBlockLines("# ", data.titles);
    HeadingBlockLines("## ", data.subTitles);
    BulletBlockLines(data.bullets);
    ImageBlockLines(resourcePath, data.id, |data.images|);
    SeparatorLine(|data.bullets| > 0);
    SeparatorLine(|data.images| > 0);
    NotesLine(data.notes);
    TrailerLines();
    UnlinesAppend(t, s);
    UnlinesAppend(t + s, bsep);
    UnlinesAppend(t + s + bsep, b);
    UnlinesAppend(t + s + bsep + b, isep);
    UnlinesAppend(t + s + bsep + b + isep, im);
    UnlinesAppend(t + s + bsep + b + isep + im, nt);
    UnlinesAppend(t + s + bsep + b + isep + im + nt, tr);
  }

  /** Whatever the slide holds, a successful rendering ends with the "\n\n\n" trailer. */
  lemma RenderEndsWithTrailer(data: SlideData, resourcePath: string)
    ensures Render(data, resourcePath).Ok? ==>
              var text := Render(data, resourcePath).value;
              |text| >= 3 && text[|text| - 3..] == "\n\n\n"
  {
    if Render(data, resourcePath).Ok? {
      var bullets := BulletBlock(data.bullets).value;
      var body := HeadingBlock("# ", data.titles) + HeadingBlock("## ", data.subTitles)
                  + (if |data.bullets| > 0 then "\n" else "") + bullets
                  + (if |data.images| > 0 then "\n" else "") + ImageBlock(resourcePath, data.id, |data.images|)
                  + NotesBlock(data.notes);
      RenderUnfold(data, resourcePath, bullets);
      assert (body + "\n\n\n")[|body|..] == "\n\n\n";
    }
  }

  /** A slide with no titles, subtitles, bullets or images and blank notes renders to
      the trailer alone. */
  lemma RenderEmptySlide(data: SlideData, resourcePath: string)
    requires data.titles == [] && data.subTitles == [] && data.bullets == [] && data.images == []
    requires IsNullOrWhiteSpace(data.notes)
    ensures Render(data, resourcePath) == Ok("\n\n\n")
  {
    RenderUnfold(data, resourcePath, "");
    assert HeadingBlock("# ", data.titles) == "" && HeadingBlock("## ", data.subTitles) == "";
    assert ImageBlock(resourcePath, data.id, 0) == "" && NotesBlock(data.notes) == "";
    assert "" + "" + "" + "" + "" + "" + "" + "\n\n\n" == "\n\n\n";
  }
}
