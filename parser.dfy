/**
 * PptxSlideParser: reads the slides of a presentation package, in presentation order,
 * into Slide objects.  Each slide's shapes are classified by their placeholder type;
 * titles, subtitles and free text become Titles, SubTitles and Bullets, pictures become
 * Images, and the body placeholder of the notes slide becomes Notes.
 *
 * The methods follow the source's loops; the functions below them (TextPass, ImagesOf,
 * NotesOf, ExtractSlide, ParseSlides, ParseDocument) give the value those loops build,
 * and the lemmas at the end characterise that value on its own terms.
 */
module Parsers {
  import opened Wrappers
  import opened Strings
  import opened Model
  import opened OpenXml

  /** The exceptions parsing can end with. */
  datatype ParseError =
    | ArgumentNull                          // ParseSlide: the slide part or its Slide is null
    | UnknownRelationship(id: string)       // GetPartById: no part has this relationship id
    | NotASlidePart(id: string)             // the part is not a SlidePart (the cast fails)
    | MissingPlaceholderType                // p:ph without `type`: reading the enum value throws
    | MissingTextBody                       // GetFirstChild<TextBody>() is null
    | UnresolvedImage(embed: string)        // GetPartById(embed) finds no part

  /** What a shape contributes to the slide. */
  datatype Role = TitleRole | SubTitleRole | BodyTextRole | Ignored

  /** The cascade on the placeholder type: Title and CenteredTitle are titles, SubTitle is
      a subtitle, a shape with no placeholder or a Body placeholder is free text, and any
      other placeholder is skipped. */
  function Classify(shape: Shape): (r: Result<Role, ParseError>)
    ensures r.Err? <==> shape.placeholder.Some? && shape.placeholder.value.placeholderType.None?
    ensures r == Ok(BodyTextRole)
        <==> shape.placeholder.None? || shape.placeholder.value.placeholderType == Some(Body)
    ensures r == Ok(TitleRole)
        <==> shape.placeholder.Some?
             && shape.placeholder.value.placeholderType in {Some(Title), Some(CenteredTitle)}
    ensures r == Ok(SubTitleRole)
        <==> shape.placeholder.Some? && shape.placeholder.value.placeholderType == Some(SubTitle)
  {
    match shape.placeholder
    case None => Ok(BodyTextRole)
    case Some(ph) =>
      match ph.placeholderType
      case None => Err(MissingPlaceholderType)
      case Some(t) =>
        if t == Body then Ok(BodyTextRole)
        else if t == Title || t == CenteredTitle then Ok(TitleRole)
        else if t == SubTitle then Ok(SubTitleRole)
        else Ok(Ignored)
  }

  /** TextBody.InnerText: the text of all its paragraphs, concatenated without separator. */
  function InnerText(body: TextBody): string
  {
    Concat(seq(|body.paragraphs|, i requires 0 <= i < |body.paragraphs| => body.paragraphs[i].innerText))
  }

  /** A paragraph's bullet: its text, and its level or 0 when it declares none. */
  function BulletOf(paragraph: Paragraph): Bullet
  {
    Bullet(paragraph.innerText, if paragraph.level.Some? then paragraph.level.value else 0)
  }

  /** The bullets of a text body, one per paragraph, in order. */
  function BulletsOf(paragraphs: seq<Paragraph>): (bullets: seq<Bullet>)
    ensures |bullets| == |paragraphs|
  {
    seq(|paragraphs|, i requires 0 <= i < |paragraphs| => BulletOf(paragraphs[i]))
  }

  /** Titles, SubTitles and Bullets as filled by the pass over the slide's shapes. */
  datatype TextContent = TextContent(titles: seq<string>, subTitles: seq<string>, bullets: seq<Bullet>)

  /** One iteration of the shape loop. */
  function AddShape(content: TextContent, shape: Shape): Result<TextContent, ParseError>
  {
    match Classify(shape)
    case Err(e) => Err(e)
    case Ok(role) =>
      if role == Ignored then Ok(content)
      else if shape.textBody.None? then Err(MissingTextBody)
      else
        var body := shape.textBody.value;
        match role
        case TitleRole => Ok(content.(titles := content.titles + [InnerText(body)]))
        case SubTitleRole => Ok(content.(subTitles := content.subTitles + [InnerText(body)]))
        case BodyTextRole => Ok(content.(bullets := content.bullets + BulletsOf(body.paragraphs)))
  }

  /** The shape loop over a sequence of shapes: the content it builds, or the exception of
      the first shape it cannot read. */
  function TextPass(shapes: seq<Shape>): Result<TextContent, ParseError>
  {
    if shapes == [] then Ok(TextContent([], [], []))
    else
      match TextPass(shapes[..|shapes| - 1])
      case Err(e) => Err(e)
      case Ok(content) => AddShape(content, shapes[|shapes| - 1])
  }

  /** One iteration of the picture loop. */
  function ImageOf(part: Part): Image
  {
    Image(part.uri, part.contentType, part.data)
  }

  /** The picture loop: one image per picture, or the exception of the first picture
      whose relationship does not resolve. */
  function ImagesOf(pictures: seq<Picture>, parts: map<string, Part>): Result<seq<Image>, ParseError>
  {
    if pictures == [] then Ok([])
    else
      var embed := pictures[|pictures| - 1].embed;
      match ImagesOf(pictures[..|pictures| - 1], parts)
      case Err(e) => Err(e)
      case Ok(images) =>
        if embed in parts then Ok(images + [ImageOf(parts[embed])]) else Err(UnresolvedImage(embed))
  }

  predicate IsBodyPlaceholder(shape: Shape)
  {
    shape.placeholder.Some? && shape.placeholder.value.placeholderType == Some(Body)
  }

  /** A notes shape the FirstOrDefault test passes over: its placeholder has a type, and
      the type is not Body. */
  predicate IsOtherPlaceholder(shape: Shape)
  {
    shape.placeholder.Some? && shape.placeholder.value.placeholderType.Some?
    && shape.placeholder.value.placeholderType.value != Body
  }

  /** A notes shape on which the test `?.Type == Body` throws: with no placeholder, or no
      type, the null EnumValue is converted to the enum, as in the shape loop. */
  predicate HasNoPlaceholderType(shape: Shape)
  {
    shape.placeholder.None? || shape.placeholder.value.placeholderType.None?
  }

  /** The shapes before position k are all passed over. */
  predicate PassedOver(shapes: seq<Shape>, k: nat)
    requires k <= |shapes|
  {
    forall j :: 0 <= j < k ==> IsOtherPlaceholder(shapes[j])
  }

  /** FirstOrDefault over the notes shapes, testing them in order: the first Body
      placeholder, None when every shape is passed over, or the exception of the first
      shape whose placeholder type is missing. */
  function FirstBodyPlaceholder(shapes: seq<Shape>): (r: Result<Option<Shape>, ParseError>)
    ensures r == Ok(None) <==> PassedOver(shapes, |shapes|)
    ensures r.Ok? && r.value.Some? ==>
              exists k :: 0 <= k < |shapes| && shapes[k] == r.value.value && IsBodyPlaceholder(shapes[k])
                          && PassedOver(shapes, k)
    ensures r.Err? ==>
              r.error == MissingPlaceholderType
              && exists k :: 0 <= k < |shapes| && HasNoPlaceholderType(shapes[k]) && PassedOver(shapes, k)
  {
    if shapes == [] then Ok(None)
    else if HasNoPlaceholderType(shapes[0]) then
      assert PassedOver(shapes, 0);
      Err(MissingPlaceholderType)
    else if IsBodyPlaceholder(shapes[0]) then
      assert PassedOver(shapes, 0);
      Ok(Some(shapes[0]))
    else
      var rest := shapes[1..];
      var r := FirstBodyPlaceholder(rest);
      assert forall j :: 1 <= j < |shapes| ==> shapes[j] == rest[j - 1];
      assert forall k :: 0 <= k < |rest| && PassedOver(rest, k) ==> PassedOver(shapes, k + 1);
      assert PassedOver(shapes, |shapes|) ==> PassedOver(rest, |rest|);
      if r.Ok? && r.value.Some? then
        var k :| 0 <= k < |rest| && rest[k] == r.value.value && IsBodyPlaceholder(rest[k]) && PassedOver(rest, k);
        assert shapes[k + 1] == r.value.value && PassedOver(shapes, k + 1);
        r
      else if r.Err? then
        var k :| 0 <= k < |rest| && HasNoPlaceholderType(rest[k]) && PassedOver(rest, k);
        assert HasNoPlaceholderType(shapes[k + 1]) && PassedOver(shapes, k + 1);
        r
      else r
  }

  /** The speaker notes: the text of the first Body placeholder of the notes slide, or
      nothing when there is no notes slide or no such shape; the lookup throws on a shape
      tested before it that has no placeholder type, and on a notes shape without text. */
  function NotesOf(notesSlidePart: Option<NotesSlidePart>): Result<Option<string>, ParseError>
  {
    if notesSlidePart.None? || notesSlidePart.value.shapeTree.None? then Ok(None)
    else
      match FirstBodyPlaceholder(Shapes(notesSlidePart.value.shapeTree.value))
      case Err(e) => Err(e)
      case Ok(None) => Ok(None)
      case Ok(Some(noteShape)) =>
        if noteShape.textBody.None? then Err(MissingTextBody)
        else Ok(Some(InnerText(noteShape.textBody.value)))
  }

  /** The slide ParseSlide returns, or the exception it throws. */
  function ExtractSlide(slidePart: Option<SlidePart>, id: Guid): Result<SlideData, ParseError>
  {
    if slidePart.None? || slidePart.value.slide.None? then Err(ArgumentNull)
    else
      var part := slidePart.value;
      var tree := part.slide.value;
      match TextPass(Shapes(tree))
      case Err(e) => Err(e)
      case Ok(text) =>
        match ImagesOf(Pictures(tree), part.parts)
        case Err(e) => Err(e)
        case Ok(images) =>
          match NotesOf(part.notesSlidePart)
          case Err(e) => Err(e)
          case Ok(notes) => Ok(SlideData(text.titles, text.subTitles, text.bullets, images, notes, id))
  }

  /** GetPartById followed by the cast to SlidePart. */
  function ResolveSlide(presentationPart: PresentationPart, slideId: SlideId): Result<SlidePart, ParseError>
  {
    var relId := slideId.relationshipId;
    if relId !in presentationPart.parts then Err(UnknownRelationship(relId))
    else
      match presentationPart.parts[relId]
      case OtherChild => Err(NotASlidePart(relId))
      case SlideChild(slidePart) => Ok(slidePart)
  }

  /** The slide-id loop over a prefix of the list; slide k is given the Guid newGuid(k). */
  function ParseSlides(presentationPart: PresentationPart, ids: seq<SlideId>, newGuid: nat -> Guid)
    : Result<seq<SlideData>, ParseError>
  {
    if ids == [] then Ok([])
    else
      var k := |ids| - 1;
      match ParseSlides(presentationPart, ids[..k], newGuid)
      case Err(e) => Err(e)
      case Ok(slides) =>
        match ParseOne(presentationPart, ids[k], newGuid(k))
        case Err(e) => Err(e)
        case Ok(slide) => Ok(slides + [slide])
  }

  /** One turn of the slide-id loop: the part the id refers to, parsed. */
  function ParseOne(presentationPart: PresentationPart, slideId: SlideId, id: Guid): Result<SlideData, ParseError>
  {
    match ResolveSlide(presentationPart, slideId)
    case Err(e) => Err(e)
    case Ok(slidePart) => ExtractSlide(Some(slidePart), id)
  }

  /** The slides Parse returns, or the exception it throws. */
  function ParseDocument(doc: PresentationDocument, newGuid: nat -> Guid): Result<seq<SlideData>, ParseError>
  {
    match SlideIdList(doc)
    case None => Ok([])
    case Some(ids) => ParseSlides(doc.presentationPart.value, ids, newGuid)
  }

  /** The slide id list, when the presentation part, its presentation and the list exist. */
  function SlideIdList(doc: PresentationDocument): (r: Option<seq<SlideId>>)
    ensures r.Some? ==> doc.presentationPart.Some?
  {
    if doc.presentationPart.Some? && doc.presentationPart.value.presentation.Some? then
      doc.presentationPart.value.presentation.value.slideIdList
    else None
  }

  /** The text fields of a slide under construction. */
  function TextOf(slide: Slide): TextContent
    reads slide
  {
    TextContent(slide.titles, slide.subTitles, slide.bullets)
  }

  /** The parser for PowerPoint files.  Opening the package is I/O: the constructor is
      given the opened document. */
  class PptxSlideParser {
    var doc: PresentationDocument

    constructor (doc: PresentationDocument)
      ensures this.doc == doc
    {
      this.doc := doc;
    }

    /** Parses the document into a list of slides, one per slide id, in list order.
        Guid.NewGuid() is random: newGuid(k) stands for the Guid slide k receives. */
    method Parse(newGuid: nat -> Guid) returns (r: Result<seq<Slide>, ParseError>)
      ensures r.Err? ==> ParseDocument(doc, newGuid) == Err(r.error)
      ensures r.Ok? ==> ParseDocument(doc, newGuid) == Ok(Snapshots(r.value))
      ensures r.Ok? ==> forall i :: 0 <= i < |r.value| ==> fresh(r.value[i])
    {
      var presentationPart := doc.presentationPart;
      if presentationPart.Some? && presentationPart.value.presentation.Some?
         && presentationPart.value.presentation.value.slideIdList.Some? {
        r := ParseSlideIds(presentationPart.value, presentationPart.value.presentation.value.slideIdList.value, newGuid);
      } else {
        r := Ok([]);
      }
    }

    /** The loop over the slide id list: slide k is parsed with the Guid newGuid(k). */
    static method ParseSlideIds(part: PresentationPart, ids: seq<SlideId>, newGuid: nat -> Guid)
      returns (r: Result<seq<Slide>, ParseError>)
      ensures r.Err? ==> ParseSlides(part, ids, newGuid) == Err(r.error)
      ensures r.Ok? ==> ParseSlides(part, ids, newGuid) == Ok(Snapshots(r.value))
      ensures r.Ok? ==> forall i :: 0 <= i < |r.value| ==> fresh(r.value[i])
    {
      var parsedSlides: seq<Slide> := [];
      for i := 0 to |ids|
        invariant ParseSlides(part, ids[..i], newGuid) == Ok(Snapshots(parsedSlides))
        invariant forall k :: 0 <= k < |parsedSlides| ==> fresh(parsedSlides[k])
      {
        ParseSlidesStep(part, ids, i, newGuid);
        var parsed := ParseSlideAt(part, ids[i], newGuid(i));
        if parsed.Err? {
          ParseSlidesPrefixErr(part, ids, i + 1, newGuid);
          assert ids[..|ids|] == ids;
          return Err(parsed.error);
        }
        SnapshotsSnoc(parsedSlides, parsed.value);
        parsedSlides := parsedSlides + [parsed.value];
      }
      assert ids[..|ids|] == ids;
      return Ok(parsedSlides);
    }

    /** GetPartById(slideId.RelationshipId), cast to SlidePart, then ParseSlide. */
    static method ParseSlideAt(presentationPart: PresentationPart, slideId: SlideId, id: Guid)
      returns (r: Result<Slide, ParseError>)
      ensures r.Err? ==> ParseOne(presentationPart, slideId, id) == Err(r.error)
      ensures r.Ok? ==> fresh(r.value) && ParseOne(presentationPart, slideId, id) == Ok(r.value.Snapshot())
    {
      var slidePart := ResolveSlide(presentationPart, slideId);
      if slidePart.Err? {
        return Err(slidePart.error);
      }
      r := ParseSlide(Some(slidePart.value), id);
    }

    /** Parses one slide into a new Slide.  The slide's Guid is the parameter id. */
    static method ParseSlide(slidePart: Option<SlidePart>, id: Guid) returns (r: Result<Slide, ParseError>)
      ensures r.Err? ==> ExtractSlide(slidePart, id) == Err(r.error)
      ensures r.Ok? ==> fresh(r.value) && ExtractSlide(slidePart, id) == Ok(r.value.Snapshot())
    {
      if slidePart.None? || slidePart.value.slide.None? {
        return Err(ArgumentNull);
      }
      var part := slidePart.value;
      var parsedSlide := new Slide(id);

      // The text shapes.
      var shapes := Shapes(part.slide.value);
      for i := 0 to |shapes|
        invariant TextPass(shapes[..i]) == Ok(TextOf(parsedSlide))
        invariant parsedSlide.images == [] && parsedSlide.notes == None && parsedSlide.id == id
      {
        var entity := shapes[i];
        assert shapes[..i + 1][..i] == shapes[..i];
        var error := AddShapeText(parsedSlide, entity);
        if error.Some? {
          assert TextPass(shapes[..i + 1]) == Err(error.value);
          TextPassPrefixErr(shapes, i + 1);
          assert shapes[..|shapes|] == shapes;
          return Err(error.value);
        }
      }
      assert shapes[..|shapes|] == shapes;

      // The pictures.
      var unresolved := AddImages(parsedSlide, Pictures(part.slide.value), part.parts);
      if unresolved.Some? {
        return Err(unresolved.value);
      }
      assert parsedSlide.images == ImagesOf(Pictures(part.slide.value), part.parts).value;

      // The speaker notes.
      var notes := ReadNotes(part.notesSlidePart);
      if notes.Err? {
        return Err(notes.error);
      }
      parsedSlide.notes := notes.value;
      assert TextPass(shapes) == Ok(TextOf(parsedSlide));
      return Ok(parsedSlide);
    }

    /** The picture loop: adds one image per picture, or reports the relationship id of
        the first picture that does not resolve. */
    static method AddImages(parsedSlide: Slide, pictures: seq<Picture>, parts: map<string, Part>)
      returns (unresolved: Option<ParseError>)
      modifies parsedSlide
      ensures unresolved.Some? ==> ImagesOf(pictures, parts) == Err(unresolved.value)
      ensures unresolved.None? ==>
                ImagesOf(pictures, parts).Ok?
                && parsedSlide.images == old(parsedSlide.images) + ImagesOf(pictures, parts).value
      ensures TextOf(parsedSlide) == old(TextOf(parsedSlide)) && parsedSlide.notes == old(parsedSlide.notes)
    {
      for i := 0 to |pictures|
        invariant ImagesOf(pictures[..i], parts).Ok?
        invariant parsedSlide.images == old(parsedSlide.images) + ImagesOf(pictures[..i], parts).value
        invariant TextOf(parsedSlide) == old(TextOf(parsedSlide)) && parsedSlide.notes == old(parsedSlide.notes)
      {
        assert pictures[..i + 1][..i] == pictures[..i];
        var embed := pictures[i].embed;
        if embed !in parts {
          ImagesOfPrefixErr(pictures, parts, i + 1);
          assert pictures[..|pictures|] == pictures;
          return Some(UnresolvedImage(embed));
        }
        var imgPart := parts[embed];
        parsedSlide.images := parsedSlide.images + [Image(imgPart.uri, imgPart.contentType, imgPart.data)];
      }
      assert pictures[..|pictures|] == pictures;
      return None;
    }

    /** The speaker notes: the inner text of the first Body placeholder of the notes
        slide, if there is one. */
    static method ReadNotes(notesSlidePart: Option<NotesSlidePart>) returns (r: Result<Option<string>, ParseError>)
      ensures r == NotesOf(notesSlidePart)
    {
      r := Ok(None);
      if notesSlidePart.Some? && notesSlidePart.value.shapeTree.Some? {
        var noteShape := FirstBodyPlaceholder(Shapes(notesSlidePart.value.shapeTree.value));
        if noteShape.Err? {
          return Err(noteShape.error);
        }
        if noteShape.value.Some? {
          if noteShape.value.value.textBody.None? {
            return Err(MissingTextBody);
          }
          r := Ok(Some(InnerText(noteShape.value.value.textBody.value)));
        }
      }
    }

    /** The body of the shape loop: adds what one shape contributes to the slide, or
        reports the exception reading it throws, leaving the slide as it was. */
    static method AddShapeText(parsedSlide: Slide, entity: Shape) returns (error: Option<ParseError>)
      modifies parsedSlide
      ensures error.Some? ==> AddShape(old(TextOf(parsedSlide)), entity) == Err(error.value)
                              && TextOf(parsedSlide) == old(TextOf(parsedSlide))
      ensures error.None? ==> AddShape(old(TextOf(parsedSlide)), entity) == Ok(TextOf(parsedSlide))
      ensures parsedSlide.images == old(parsedSlide.images) && parsedSlide.notes == old(parsedSlide.notes)
    {
      error := None;
      var placeholderShape := entity.placeholder;
      if placeholderShape.Some? && placeholderShape.value.placeholderType != Some(Body) {
        if placeholderShape.value.placeholderType.None? {
          error := Some(MissingPlaceholderType);
        } else {
          match placeholderShape.value.placeholderType.value
          case Title | CenteredTitle =>
            if entity.textBody.None? {
              error := Some(MissingTextBody);
            } else {
              parsedSlide.titles := parsedSlide.titles + [InnerText(entity.textBody.value)];
            }
          case SubTitle =>
            if entity.textBody.None? {
              error := Some(MissingTextBody);
            } else {
              parsedSlide.subTitles := parsedSlide.subTitles + [InnerText(entity.textBody.value)];
            }
          case _ =>
        }
      } else if entity.textBody.None? {
        error := Some(MissingTextBody);
      } else {
        AddParagraphs(parsedSlide, entity.textBody.value.paragraphs);
      }
    }

    /** The paragraph loop: one bullet per paragraph, at the paragraph's level or 0. */
    static method AddParagraphs(parsedSlide: Slide, paragraphs: seq<Paragraph>)
      modifies parsedSlide
      ensures parsedSlide.bullets == old(parsedSlide.bullets) + BulletsOf(paragraphs)
      ensures parsedSlide.titles == old(parsedSlide.titles) && parsedSlide.subTitles == old(parsedSlide.subTitles)
      ensures parsedSlide.images == old(parsedSlide.images) && parsedSlide.notes == old(parsedSlide.notes)
    {
      for j := 0 to |paragraphs|
        invariant parsedSlide.titles == old(parsedSlide.titles)
        invariant parsedSlide.subTitles == old(parsedSlide.subTitles)
        invariant parsedSlide.bullets == old(parsedSlide.bullets) + BulletsOf(paragraphs[..j])
        invariant parsedSlide.images == old(parsedSlide.images) && parsedSlide.notes == old(parsedSlide.notes)
      {
        var paragraph := paragraphs[j];
        assert BulletsOf(paragraphs[..j + 1]) == BulletsOf(paragraphs[..j]) + [BulletOf(paragraph)];
        parsedSlide.bullets := parsedSlide.bullets + [Bullet(
          paragraph.innerText,
          if paragraph.level.Some? then paragraph.level.value else 0)];
      }
      assert paragraphs[..|paragraphs|] == paragraphs;
    }
  }

  // ---------------------------------------------------------------------------------
  // An exception ends each loop: the whole pass fails as its prefix did
  // ---------------------------------------------------------------------------------

  lemma {:induction false} TextPassPrefixErr(shapes: seq<Shape>, k: nat)
    requires k <= |shapes|
    requires TextPass(shapes[..k]).Err?
    ensures TextPass(shapes) == TextPass(shapes[..k])
  {
    if k == |shapes| {
      assert shapes[..k] == shapes;
    } else {
      var front := shapes[..|shapes| - 1];
      assert front[..k] == shapes[..k];
      TextPassPrefixErr(front, k);
    }
  }

  lemma {:induction false} ImagesOfPrefixErr(pictures: seq<Picture>, parts: map<string, Part>, k: nat)
    requires k <= |pictures|
    requires ImagesOf(pictures[..k], parts).Err?
    ensures ImagesOf(pictures, parts) == ImagesOf(pictures[..k], parts)
  {
    if k == |pictures| {
      assert pictures[..k] == pictures;
    } else {
      var front := pictures[..|pictures| - 1];
      assert front[..k] == pictures[..k];
      ImagesOfPrefixErr(front, parts, k);
    }
  }

  /** One turn of the slide-id loop. */
  lemma ParseSlidesStep(presentationPart: PresentationPart, ids: seq<SlideId>, i: nat, newGuid: nat -> Guid)
    requires i < |ids|
    ensures ParseSlides(presentationPart, ids[..i + 1], newGuid)
            == match ParseSlides(presentationPart, ids[..i], newGuid)
               case Err(e) => Err(e)
               case Ok(slides) =>
                 match ParseOne(presentationPart, ids[i], newGuid(i))
                 case Err(e) => Err(e)
                 case Ok(slide) => Ok(slides + [slide])
  {
    assert ids[..i + 1][..i] == ids[..i];
  }

  lemma {:induction false} ParseSlidesPrefixErr(
    presentationPart: PresentationPart, ids: seq<SlideId>, k: nat, newGuid: nat -> Guid)
    requires k <= |ids|
    requires ParseSlides(presentationPart, ids[..k], newGuid).Err?
    ensures ParseSlides(presentationPart, ids, newGuid) == ParseSlides(presentationPart, ids[..k], newGuid)
  {
    if k == |ids| {
      assert ids[..k] == ids;
    } else {
      var front := ids[..|ids| - 1];
      assert front[..k] == ids[..k];
      ParseSlidesPrefixErr(presentationPart, front, k, newGuid);
    }
  }

  // ---------------------------------------------------------------------------------
  // What the slide's text is, shape by shape
  // ---------------------------------------------------------------------------------

  /** A shape the text pass can read: a placeholder, if any, has a type, and a shape that
      is not skipped has a text body. */
  predicate Readable(shape: Shape)
  {
    Classify(shape).Ok? && (Classify(shape).value != Ignored ==> shape.textBody.Some?)
  }

  predicate AllReadable(shapes: seq<Shape>)
  {
    forall i :: 0 <= i < |shapes| ==> Readable(shapes[i])
  }

  /** Every picture's relationship id names a part of the slide. */
  predicate AllResolve(pictures: seq<Picture>, parts: map<string, Part>)
  {
    forall i :: 0 <= i < |pictures| ==> pictures[i].embed in parts
  }

  /** The placeholder types whose text goes to Titles, and to SubTitles. */
  const TitleTypes: set<PlaceholderValues> := {Title, CenteredTitle}
  const SubTitleTypes: set<PlaceholderValues> := {SubTitle}

  /** What one shape gives to Titles (types TitleTypes) or to SubTitles (SubTitleTypes):
      the inner text of a placeholder of one of those types. */
  function HeadingOf(types: set<PlaceholderValues>, shape: Shape): seq<string>
  {
    if shape.placeholder.Some? && shape.placeholder.value.placeholderType.Some?
       && shape.placeholder.value.placeholderType.value in types && shape.textBody.Some?
    then [InnerText(shape.textBody.value)] else []
  }

  /** What one shape gives to Bullets: for a shape with no placeholder or a Body
      placeholder, a bullet per paragraph. */
  function BulletsOfShape(shape: Shape): seq<Bullet>
  {
    if (shape.placeholder.None? || shape.placeholder.value.placeholderType == Some(Body))
       && shape.textBody.Some?
    then BulletsOf(shape.textBody.value.paragraphs) else []
  }

  /** What a sequence of shapes gives to Titles or SubTitles, shape by shape, in
      document order. */
  function HeadingsOf(types: set<PlaceholderValues>, shapes: seq<Shape>): seq<string>
  {
    if shapes == [] then [] else HeadingOf(types, shapes[0]) + HeadingsOf(types, shapes[1..])
  }

  function BulletsOfShapes(shapes: seq<Shape>): seq<Bullet>
  {
    if shapes == [] then [] else BulletsOfShape(shapes[0]) + BulletsOfShapes(shapes[1..])
  }

  lemma {:induction false} ShapeContentsSnoc(shapes: seq<Shape>, shape: Shape)
    ensures HeadingsOf(TitleTypes, shapes + [shape])
            == HeadingsOf(TitleTypes, shapes) + HeadingOf(TitleTypes, shape)
    ensures HeadingsOf(SubTitleTypes, shapes + [shape])
            == HeadingsOf(SubTitleTypes, shapes) + HeadingOf(SubTitleTypes, shape)
    ensures BulletsOfShapes(shapes + [shape]) == BulletsOfShapes(shapes) + BulletsOfShape(shape)
  {
    HeadingsSnoc(TitleTypes, shapes, shape);
    HeadingsSnoc(SubTitleTypes, shapes, shape);
    BulletsSnoc(shapes, shape);
  }

  lemma {:induction false} HeadingsSnoc(types: set<PlaceholderValues>, shapes: seq<Shape>, shape: Shape)
    ensures HeadingsOf(types, shapes + [shape]) == HeadingsOf(types, shapes) + HeadingOf(types, shape)
  {
    if shapes == [] {
      assert [] + [shape] == [shape];
      assert [shape][1..] == [];
    } else {
      assert (shapes + [shape])[1..] == shapes[1..] + [shape];
      HeadingsSnoc(types, shapes[1..], shape);
    }
  }

  lemma {:induction false} BulletsSnoc(shapes: seq<Shape>, shape: Shape)
    ensures BulletsOfShapes(shapes + [shape]) == BulletsOfShapes(shapes) + BulletsOfShape(shape)
  {
    if shapes == [] {
      assert [] + [shape] == [shape];
      assert [shape][1..] == [];
    } else {
      assert (shapes + [shape])[1..] == shapes[1..] + [shape];
      BulletsSnoc(shapes[1..], shape);
    }
  }

  /** The shape loop succeeds exactly when every shape is readable, and then Titles,
      SubTitles and Bullets hold, in document order, what each shape gives. */
  lemma {:induction false} TextPassCharacterization(shapes: seq<Shape>)
    ensures TextPass(shapes).Ok? <==> AllReadable(shapes)
    ensures TextPass(shapes).Ok?
        ==> TextPass(shapes).value
            == TextContent(HeadingsOf(TitleTypes, shapes), HeadingsOf(SubTitleTypes, shapes), BulletsOfShapes(shapes))
  {
    if shapes != [] {
      var n := |shapes|;
      var front, last := shapes[..n - 1], shapes[n - 1];
      assert shapes == front + [last];
      TextPassCharacterization(front);
      ShapeContentsSnoc(front, last);
      AllReadableSnoc(shapes);
      if TextPass(front).Ok? {
        AddShapeContents(TextPass(front).value, last);
      }
    }
  }

  lemma AllReadableSnoc(shapes: seq<Shape>)
    requires shapes != []
    ensures AllReadable(shapes) <==> AllReadable(shapes[..|shapes| - 1]) && Readable(shapes[|shapes| - 1])
  {
    var front := shapes[..|shapes| - 1];
    assert forall i :: 0 <= i < |front| ==> front[i] == shapes[i];
  }

  /** One shape adds its titles, subtitles and bullets to the content, or fails when it
      cannot be read. */
  lemma AddShapeContents(content: TextContent, shape: Shape)
    ensures AddShape(content, shape).Ok? <==> Readable(shape)
    ensures AddShape(content, shape).Ok? ==>
              AddShape(content, shape).value
              == TextContent(content.titles + HeadingOf(TitleTypes, shape),
                             content.subTitles + HeadingOf(SubTitleTypes, shape),
                             content.bullets + BulletsOfShape(shape))
  {
  }

  /** A placeholder of any type other than Body, Title, CenteredTitle and SubTitle changes
      nothing in the slide. */
  lemma OtherPlaceholderIsSkipped(content: TextContent, shape: Shape)
    requires shape.placeholder.Some? && shape.placeholder.value.placeholderType.Some?
    requires shape.placeholder.value.placeholderType.value !in {Body, Title, CenteredTitle, SubTitle}
    ensures AddShape(content, shape) == Ok(content)
    ensures HeadingOf(TitleTypes, shape) == [] && HeadingOf(SubTitleTypes, shape) == [] && BulletsOfShape(shape) == []
  {
  }

  /** A shape with no placeholder always gives bullets, one per paragraph, with the
      paragraph's level or 0, and never a title or subtitle. */
  lemma FreeTextIsBullets(shape: Shape)
    requires shape.placeholder.None? && shape.textBody.Some?
    ensures HeadingOf(TitleTypes, shape) == [] && HeadingOf(SubTitleTypes, shape) == []
    ensures var ps := shape.textBody.value.paragraphs;
            var bs := BulletsOfShape(shape);
            |bs| == |ps|
            && forall i :: 0 <= i < |ps| ==>
                 bs[i].text == ps[i].innerText
                 && bs[i].level == (if ps[i].level.Some? then ps[i].level.value else 0)
  {
  }

  // ---------------------------------------------------------------------------------
  // Images, notes, one slide, the document
  // ---------------------------------------------------------------------------------

  /** The picture loop succeeds exactly when every picture's relationship resolves, and
      then gives one image per picture, in document order, carrying the resolved part's
      URI, content type and data. */
  lemma {:induction false} ImagesOfCharacterization(pictures: seq<Picture>, parts: map<string, Part>)
    ensures ImagesOf(pictures, parts).Ok? <==> AllResolve(pictures, parts)
    ensures ImagesOf(pictures, parts).Ok? ==>
              var images := ImagesOf(pictures, parts).value;
              |images| == |pictures|
              && forall i :: 0 <= i < |pictures| ==>
                   var part := parts[pictures[i].embed];
                   images[i] == Image(part.uri, part.contentType, part.data)
  {
    if pictures != [] {
      var n := |pictures|;
      ImagesOfCharacterization(pictures[..n - 1], parts);
      assert forall i :: 0 <= i < n - 1 ==> pictures[..n - 1][i] == pictures[i];
    }
  }

  /** The notes are the text of the first Body placeholder of the notes slide, when every
      shape before it has a placeholder of another type; they are left unset when there is
      no notes slide (or shape tree) or every shape is such a placeholder; the lookup
      throws when a shape without a placeholder type comes first, or when the Body
      placeholder has no text body. */
  lemma NotesOfCharacterization(notesSlidePart: Option<NotesSlidePart>)
    ensures NotesOf(notesSlidePart) == Ok(None)
        <==> notesSlidePart.None? || notesSlidePart.value.shapeTree.None?
             || var shapes := Shapes(notesSlidePart.value.shapeTree.value);
                PassedOver(shapes, |shapes|)
    ensures NotesOf(notesSlidePart).Ok? && NotesOf(notesSlidePart).value.Some? ==>
              var shapes := Shapes(notesSlidePart.value.shapeTree.value);
              exists k :: 0 <= k < |shapes| && IsBodyPlaceholder(shapes[k]) && PassedOver(shapes, k)
                && shapes[k].textBody.Some?
                && NotesOf(notesSlidePart).value.value == InnerText(shapes[k].textBody.value)
    ensures NotesOf(notesSlidePart).Err? ==>
              var shapes := Shapes(notesSlidePart.value.shapeTree.value);
              exists k :: 0 <= k < |shapes| && PassedOver(shapes, k)
                && ((HasNoPlaceholderType(shapes[k]) && NotesOf(notesSlidePart).error == MissingPlaceholderType)
                    || (IsBodyPlaceholder(shapes[k]) && shapes[k].textBody.None?
                        && NotesOf(notesSlidePart).error == MissingTextBody))
  {
    if notesSlidePart.Some? && notesSlidePart.value.shapeTree.Some? {
      var shapes := Shapes(notesSlidePart.value.shapeTree.value);
      var first := FirstBodyPlaceholder(shapes);
      if first.Ok? && first.value.Some? {
        var noteShape := first.value.value;
        assert NotesOf(notesSlidePart)
               == if noteShape.textBody.None? then Err(MissingTextBody) else Ok(Some(InnerText(noteShape.textBody.value)));
      }
    }
  }

  /** One slide: ParseSlide succeeds exactly when the slide exists, every shape is
      readable, every picture resolves and the notes can be read; the slide then has the
      given Guid and holds each shape's titles, subtitles and bullets and each picture's
      image, in document order. */
  lemma ExtractSlideCharacterization(slidePart: Option<SlidePart>, id: Guid)
    ensures ExtractSlide(slidePart, id).Ok?
        <==> slidePart.Some? && slidePart.value.slide.Some?
             && AllReadable(Shapes(slidePart.value.slide.value))
             && AllResolve(Pictures(slidePart.value.slide.value), slidePart.value.parts)
             && NotesOf(slidePart.value.notesSlidePart).Ok?
    ensures ExtractSlide(slidePart, id).Ok? ==>
              var slide := ExtractSlide(slidePart, id).value;
              var tree := slidePart.value.slide.value;
              && slide.id == id
              && slide.titles == HeadingsOf(TitleTypes, Shapes(tree))
              && slide.subTitles == HeadingsOf(SubTitleTypes, Shapes(tree))
              && slide.bullets == BulletsOfShapes(Shapes(tree))
              && |slide.images| == |Pictures(tree)|
              && Ok(slide.notes) == NotesOf(slidePart.value.notesSlidePart)
  {
    if slidePart.Some? && slidePart.value.slide.Some? {
      var part := slidePart.value;
      var tree := part.slide.value;
      TextPassCharacterization(Shapes(tree));
      ImagesOfCharacterization(Pictures(tree), part.parts);
      if TextPass(Shapes(tree)).Err? {
        assert ExtractSlide(slidePart, id).Err?;
      } else if ImagesOf(Pictures(tree), part.parts).Err? {
        assert ExtractSlide(slidePart, id).Err?;
      } else {
        assert |ImagesOf(Pictures(tree), part.parts).value| == |Pictures(tree)|;
      }
    }
  }

  /** Slide k of the list parses, with the Guid newGuid(k). */
  predicate SlideParses(presentationPart: PresentationPart, slideId: SlideId, id: Guid)
  {
    ResolveSlide(presentationPart, slideId).Ok?
    && ExtractSlide(Some(ResolveSlide(presentationPart, slideId).value), id).Ok?
  }

  /** Every slide of the list parses. */
  predicate AllParse(presentationPart: PresentationPart, ids: seq<SlideId>, newGuid: nat -> Guid)
  {
    forall k :: 0 <= k < |ids| ==> SlideParses(presentationPart, ids[k], newGuid(k))
  }

  /** slides[k] is what ParseSlide reads from the part slide id k refers to. */
  predicate ParsedAs(slides: seq<SlideData>, presentationPart: PresentationPart, ids: seq<SlideId>, newGuid: nat -> Guid)
  {
    |slides| == |ids|
    && forall k :: 0 <= k < |ids| ==>
         ResolveSlide(presentationPart, ids[k]).Ok?
         && Ok(slides[k]) == ExtractSlide(Some(ResolveSlide(presentationPart, ids[k]).value), newGuid(k))
  }

  lemma AllParseSnoc(presentationPart: PresentationPart, ids: seq<SlideId>, newGuid: nat -> Guid)
    requires ids != []
    ensures AllParse(presentationPart, ids, newGuid)
        <==> AllParse(presentationPart, ids[..|ids| - 1], newGuid)
             && SlideParses(presentationPart, ids[|ids| - 1], newGuid(|ids| - 1))
  {
    var front := ids[..|ids| - 1];
    assert forall k :: 0 <= k < |front| ==> front[k] == ids[k];
  }

  lemma ParsedAsSnoc(slides: seq<SlideData>, slide: SlideData, presentationPart: PresentationPart,
                     ids: seq<SlideId>, newGuid: nat -> Guid)
    requires ids != [] && ParsedAs(slides, presentationPart, ids[..|ids| - 1], newGuid)
    requires ResolveSlide(presentationPart, ids[|ids| - 1]).Ok?
    requires Ok(slide) == ExtractSlide(Some(ResolveSlide(presentationPart, ids[|ids| - 1]).value), newGuid(|ids| - 1))
    ensures ParsedAs(slides + [slide], presentationPart, ids, newGuid)
  {
    var front := ids[..|ids| - 1];
    assert forall k :: 0 <= k < |front| ==> front[k] == ids[k];
  }

  /** The slide-id loop succeeds exactly when every slide parses, and then gives slide k
      as ParseSlide reads it. */
  lemma {:induction false} ParseSlidesCharacterization(
    presentationPart: PresentationPart, ids: seq<SlideId>, newGuid: nat -> Guid)
    ensures ParseSlides(presentationPart, ids, newGuid).Ok? <==> AllParse(presentationPart, ids, newGuid)
    ensures ParseSlides(presentationPart, ids, newGuid).Ok? ==>
              ParsedAs(ParseSlides(presentationPart, ids, newGuid).value, presentationPart, ids, newGuid)
  {
    if ids != [] {
      var k := |ids| - 1;
      var front := ids[..k];
      ParseSlidesCharacterization(presentationPart, front, newGuid);
      AllParseSnoc(presentationPart, ids, newGuid);
      var prefix := ParseSlides(presentationPart, front, newGuid);
      if prefix.Ok? && SlideParses(presentationPart, ids[k], newGuid(k)) {
        var slide := ExtractSlide(Some(ResolveSlide(presentationPart, ids[k]).value), newGuid(k)).value;
        assert ParseSlides(presentationPart, ids, newGuid) == Ok(prefix.value + [slide]);
        ParsedAsSnoc(prefix.value, slide, presentationPart, ids, newGuid);
      }
    }
  }

  /** Parse gives exactly one slide per slide id, in the order of the slide id list;
      slide k is the one ParseSlide reads from the part slide id k refers to, and carries
      the Guid newGuid(k). */
  lemma ParseOneSlidePerId(doc: PresentationDocument, newGuid: nat -> Guid)
    requires SlideIdList(doc).Some?
    ensures var ids := SlideIdList(doc).value;
            var part := doc.presentationPart.value;
            ParseDocument(doc, newGuid).Ok?
            <==> forall k :: 0 <= k < |ids| ==> SlideParses(part, ids[k], newGuid(k))
    ensures var ids := SlideIdList(doc).value;
            var part := doc.presentationPart.value;
            ParseDocument(doc, newGuid).Ok? ==>
              var slides := ParseDocument(doc, newGuid).value;
              |slides| == |ids|
              && forall k :: 0 <= k < |ids| ==>
                   slides[k].id == newGuid(k)
                   && Ok(slides[k]) == ExtractSlide(Some(ResolveSlide(part, ids[k]).value), newGuid(k))
  {
    var ids := SlideIdList(doc).value;
    var part := doc.presentationPart.value;
    ParseSlidesCharacterization(part, ids, newGuid);
    if ParseDocument(doc, newGuid).Ok? {
      var slides := ParseDocument(doc, newGuid).value;
      forall k | 0 <= k < |ids| ensures slides[k].id == newGuid(k) {
        ExtractSlideCharacterization(Some(ResolveSlide(part, ids[k]).value), newGuid(k));
      }
    }
  }

  /** A missing presentation part, presentation or slide id list is an empty
      presentation, not an error. */
  lemma ParseWithoutSlideIdList(doc: PresentationDocument, newGuid: nat -> Guid)
    requires doc.presentationPart.None? || doc.presentationPart.value.presentation.None?
             || doc.presentationPart.value.presentation.value.slideIdList.None?
    ensures ParseDocument(doc, newGuid) == Ok([])
  {
  }

  /** Slide k is given the k-th new Guid, so when the Guids handed to the parsed slides
      are pairwise distinct, the slides' IDs are too: the hypothesis of ImageFilesDistinct. */
  lemma ParsedIdsDistinct(doc: PresentationDocument, newGuid: nat -> Guid)
    requires ParseDocument(doc, newGuid).Ok?
    requires forall a: nat, b: nat :: a < b < |ParseDocument(doc, newGuid).value| ==> newGuid(a) != newGuid(b)
    ensures var slides := ParseDocument(doc, newGuid).value;
            forall a, b :: 0 <= a < b < |slides| ==> slides[a].id != slides[b].id
  {
    var slides := ParseDocument(doc, newGuid).value;
    if SlideIdList(doc).Some? {
      ParseOneSlidePerId(doc, newGuid);
    } else {
      assert slides == [];
    }
  }

  /** A notes slide holding a text box without a placeholder before its Body placeholder:
      the lookup throws on the text box instead of passing over it. */
  lemma NotesAfterTextBoxThrow(text: string)
    ensures var textBox := Shape(None, Some(TextBody([Paragraph("box", None)])));
            var body := Shape(Some(PlaceholderShape(Some(Body))), Some(TextBody([Paragraph(text, None)])));
            NotesOf(Some(NotesSlidePart(Some([ShapeNode(textBox), ShapeNode(body)])))) == Err(MissingPlaceholderType)
  {
    var textBox := Shape(None, Some(TextBody([Paragraph("box", None)])));
    var body := Shape(Some(PlaceholderShape(Some(Body))), Some(TextBody([Paragraph(text, None)])));
    var tree := [ShapeNode(textBox), ShapeNode(body)];
    assert Shapes(tree[1..]) == [body];
    assert Shapes(tree) == [textBox, body];
  }
}
