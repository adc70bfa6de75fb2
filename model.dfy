/**
 * The intermediate slide model: Slide, with the Bullet and Image records folded in as
 * datatypes, and the Guid that identifies a slide.
 */
module Model {
  import opened Wrappers

  /** One hexadecimal digit of a Guid. */
  type Nibble = d: int | 0 <= d < 16

  /** A Guid as its 32 hexadecimal digits, most significant first, in the order
      Guid.ToString() prints them. */
  type Guid = g: seq<Nibble> | |g| == 32 witness seq(32, i => 0)

  function HexChar(d: Nibble): char
  {
    if d < 10 then ('0' as int + d) as char else ('a' as int + d - 10) as char
  }

  lemma HexCharInjective(a: Nibble, b: Nibble)
    requires HexChar(a) == HexChar(b)
    ensures a == b
  {
  }

  function Hex(ds: seq<Nibble>): (r: string)
    ensures |r| == |ds|
    ensures forall i :: 0 <= i < |ds| ==> r[i] == HexChar(ds[i])
  {
    seq(|ds|, i requires 0 <= i < |ds| => HexChar(ds[i]))
  }

  /** Guid.ToString(): the "D" format, 8-4-4-4-12 lower-case hex digits joined by '-'. */
  function GuidToString(g: Guid): (r: string)
    ensures |r| == 36
    ensures r[8] == r[13] == r[18] == r[23] == '-'
  {
    Hex(g[..8]) + "-" + Hex(g[8..12]) + "-" + Hex(g[12..16]) + "-" + Hex(g[16..20]) + "-" + Hex(g[20..])
  }

  /** Where digit i of a Guid is printed: after the dashes that precede it. */
  function DigitPosition(i: nat): nat
  {
    if i < 8 then i else if i < 12 then i + 1 else if i < 16 then i + 2 else if i < 20 then i + 3 else i + 4
  }

  lemma GuidToStringAt(g: Guid, i: nat)
    requires i < 32
    ensures DigitPosition(i) < 36 && GuidToString(g)[DigitPosition(i)] == HexChar(g[i])
  {
    var a, b, c, d, e := Hex(g[..8]), Hex(g[8..12]), Hex(g[12..16]), Hex(g[16..20]), Hex(g[20..]);
    var s := GuidToString(g);
    assert s == a + "-" + b + "-" + c + "-" + d + "-" + e;
    if i < 8 {
      assert s[i] == a[i];
    } else if i < 12 {
      assert s[i + 1] == b[i - 8];
    } else if i < 16 {
      assert s[i + 2] == c[i - 12];
    } else if i < 20 {
      assert s[i + 3] == d[i - 16];
    } else {
      assert s[i + 4] == e[i - 20];
    }
  }

  /** Two slides with different IDs never print the same ID. */
  lemma GuidToStringInjective(g: Guid, h: Guid)
    requires GuidToString(g) == GuidToString(h)
    ensures g == h
  {
    forall i | 0 <= i < 32 ensures g[i] == h[i] {
      GuidToStringAt(g, i);
      GuidToStringAt(h, i);
      HexCharInjective(g[i], h[i]);
    }
  }

  /** A bullet in a bulleted list; Level is the indentation level (an int, as in the source). */
  datatype Bullet = Bullet(text: string, level: int)

  /** The decoded picture; its pixels are opaque to the converter. */
  type ImageData = seq<bv8>

  /** An image on a slide: the part's URI, its declared content type, and its data. */
  datatype Image = Image(filename: string, contentType: string, data: ImageData)

  /** The value of a Slide's properties at one moment. */
  datatype SlideData = SlideData(
    titles: seq<string>,
    subTitles: seq<string>,
    bullets: seq<Bullet>,
    images: seq<Image>,
    notes: Option<string>,
    id: Guid)

  /** Top-level model of a slide.  The list properties have setters and are changed in
      place by the parser and by the scrub before output; ID is get-only. */
  class Slide {
    var titles: seq<string>
    var subTitles: seq<string>
    var bullets: seq<Bullet>
    var images: seq<Image>
    var notes: Option<string>
    const id: Guid

    /** `new Slide()`: empty lists, no notes, and a new Guid (supplied by the caller,
        since Guid.NewGuid() is random). */
    constructor (id: Guid)
      ensures titles == [] && subTitles == [] && bullets == [] && images == []
      ensures notes == None
      ensures this.id == id
    {
      titles, subTitles, bullets, images := [], [], [], [];
      notes := None;
      this.id := id;
    }

    function Snapshot(): (d: SlideData)
      reads this
      ensures d.titles == titles && d.subTitles == subTitles && d.bullets == bullets
      ensures d.images == images && d.notes == notes && d.id == id
    {
      SlideData(titles, subTitles, bullets, images, notes, id)
    }
  }

  /** The properties of a list of slides, in list order. */
  function Snapshots(slides: seq<Slide>): (ds: seq<SlideData>)
    reads set i | 0 <= i < |slides| :: slides[i]
    ensures |ds| == |slides|
    ensures forall i :: 0 <= i < |slides| ==> ds[i] == slides[i].Snapshot()
  {
    seq(|slides|, i reads slides requires 0 <= i < |slides| => slides[i].Snapshot())
  }

  lemma SnapshotsSnoc(slides: seq<Slide>, slide: Slide)
    ensures Snapshots(slides + [slide]) == Snapshots(slides) + [slide.Snapshot()]
  {
  }
}
