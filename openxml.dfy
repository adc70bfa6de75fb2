/**
 * The part of a PresentationML package (ECMA-376 Part 1) that the parser reads, as plain
 * values instead of the OpenXML SDK's element tree.  Element names follow the
 * standard: p:sp (Shape), p:pic (Picture), p:grpSp (GroupShape), p:ph (Placeholder),
 * p:txBody (TextBody), a:p (Paragraph), a:pPr/@lvl (the paragraph's level).
 */
module OpenXml {
  import opened Wrappers
  import opened Model

  /** ST_PlaceholderType, section 19.7.10 of ECMA-376 Part 1 (the SDK's PlaceholderValues). */
  datatype PlaceholderValues =
    | Title | Body | CenteredTitle | SubTitle | DateAndTime | SlideNumber | Footer | Header
    | Object | Chart | Table | ClipArt | Diagram | Media | SlideImage | Picture

  /** p:ph, section 19.3.1.36: its `type` attribute may be absent. */
  datatype PlaceholderShape = PlaceholderShape(placeholderType: Option<PlaceholderValues>)

  /** a:p: the concatenated text of its runs and the `lvl` of its paragraph properties,
      if declared. */
  datatype Paragraph = Paragraph(innerText: string, level: Option<int>)

  /** p:txBody: its paragraphs in document order. */
  datatype TextBody = TextBody(paragraphs: seq<Paragraph>)

  /** p:sp: the p:ph of its non-visual properties, if any, and its p:txBody, if any. */
  datatype Shape = Shape(placeholder: Option<PlaceholderShape>, textBody: Option<TextBody>)

  /** p:pic: the relationship id of its blip (`r:embed`). */
  datatype Picture = Picture(embed: string)

  /** A node of a slide's shape tree (p:spTree).  Any element that contains further
      shapes or pictures (a group shape, or a graphic frame holding an OLE object with its
      p:pic) is a GroupShape of what it contains, in document order; an element containing
      neither (a connector, a table or chart frame) is an OtherNode. */
  datatype ShapeTreeNode =
    | ShapeNode(shape: Shape)
    | PictureNode(picture: Picture)
    | GroupShape(children: seq<ShapeTreeNode>)
    | OtherNode

  /** A part reached through a relationship of a slide: its URI, content type and data. */
  datatype Part = Part(uri: string, contentType: string, data: ImageData)

  /** p:notes: the shape tree of a notes slide, absent when NotesSlide, CommonSlideData or
      ShapeTree is missing. */
  datatype NotesSlidePart = NotesSlidePart(shapeTree: Option<seq<ShapeTreeNode>>)

  /** A slide part: its Slide's shape tree (absent when the Slide did not load), the parts
      its relationships lead to, and its notes slide part, if any. */
  datatype SlidePart = SlidePart(
    slide: Option<seq<ShapeTreeNode>>,
    parts: map<string, Part>,
    notesSlidePart: Option<NotesSlidePart>)

  /** A part reached through a relationship of the presentation part. */
  datatype PresentationChild = SlideChild(slidePart: SlidePart) | OtherChild

  /** p:sldId: the relationship id of the slide. */
  datatype SlideId = SlideId(relationshipId: string)

  /** p:presentation: its p:sldIdLst, if present. */
  datatype Presentation = Presentation(slideIdList: Option<seq<SlideId>>)

  datatype PresentationPart = PresentationPart(
    presentation: Option<Presentation>,
    parts: map<string, PresentationChild>)

  datatype PresentationDocument = PresentationDocument(presentationPart: Option<PresentationPart>)

  /** Descendants<Shape>(): every p:sp of the tree, in document (depth-first) order. */
  function Shapes(nodes: seq<ShapeTreeNode>): seq<Shape>
    decreases nodes
  {
    if nodes == [] then []
    else
      (match nodes[0]
       case ShapeNode(s) => [s]
       case GroupShape(children) => Shapes(children)
       case _ => [])
      + Shapes(nodes[1..])
  }

  /** Descendants<Picture>(): every p:pic of the tree, in document order. */
  function Pictures(nodes: seq<ShapeTreeNode>): seq<Picture>
    decreases nodes
  {
    if nodes == [] then []
    else
      (match nodes[0]
       case PictureNode(p) => [p]
       case GroupShape(children) => Pictures(children)
       case _ => [])
      + Pictures(nodes[1..])
  }
}
