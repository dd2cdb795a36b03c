/**
 * The dot-matrix serialiser of etc/pixels-to-dotmatrix.py: every pixel of an
 * image whose channels add up to at least the threshold becomes a white
 * circle of the given radius in an SVG document.
 *
 * `PixelsToDotMatrix` is the script's nested loop; `Svg` is the document it
 * builds, described through the list `Dots` of pixels that get a circle. The
 * lemmas say which pixels those are, in which order and how many, and how
 * the document reads back line by line and attribute by attribute.
 */
module DotMatrix {
  import opened Outcomes
  import opened Strings

  /** A pixel as PIL's `getpixel` returns it for a multi-band image: a tuple of channel values. */
  type Color = seq<int>

  /** A pixel position, `x` counting columns and `y` rows. */
  datatype Cell = Cell(x: nat, y: nat)

  /** An opened image: its size and its pixels row by row (`rows[y][x]`). */
  datatype Image = Image(width: nat, height: nat, rows: seq<seq<Color>>)
  {
    predicate Valid()
    {
      |rows| == height && forall y :: 0 <= y < |rows| ==> |rows[y]| == width
    }

    /** `img.getpixel((x, y))`. */
    function GetPixel(x: nat, y: nat): Color
      requires Valid() && x < width && y < height
    {
      rows[y][x]
    }
  }

  /** Python's `sum(color)`. */
  function ChannelSum(color: Color): int
  {
    if |color| == 0 then 0 else ChannelSum(color[..|color| - 1]) + color[|color| - 1]
  }

  /** The pixel at `(x, y)` gets a circle: its channel sum is not below the threshold. */
  predicate Lit(img: Image, threshold: int, x: nat, y: nat)
    requires img.Valid() && x < img.width && y < img.height
  {
    ChannelSum(img.GetPixel(x, y)) >= threshold
  }

  // ---------------------------------------------------------------------
  // The pixels that get a circle, in the order the loops visit them
  // ---------------------------------------------------------------------

  /** The lit pixels among the first `y` rows of column `x`, top to bottom. */
  function ColumnDots(img: Image, threshold: int, x: nat, y: nat): seq<Cell>
    requires img.Valid() && x < img.width && y <= img.height
  {
    if y == 0 then []
    else ColumnDots(img, threshold, x, y - 1) + (if Lit(img, threshold, x, y - 1) then [Cell(x, y - 1)] else [])
  }

  /** The lit pixels of the first `x` columns, column after column. */
  function DotsBefore(img: Image, threshold: int, x: nat): seq<Cell>
    requires img.Valid() && x <= img.width
  {
    if x == 0 then []
    else DotsBefore(img, threshold, x - 1) + ColumnDots(img, threshold, x - 1, img.height)
  }

  /** All lit pixels of the image, in the order the script emits their circles. */
  function Dots(img: Image, threshold: int): seq<Cell>
    requires img.Valid()
  {
    DotsBefore(img, threshold, img.width)
  }

  // ---------------------------------------------------------------------
  // The document
  // ---------------------------------------------------------------------

  /**
   * The opening `<svg>` tag for a document of the given size, written as the
   * pieces between its double quotes:
   * `<svg width="W" height="H" viewBox="0 0 W H" fill="none" xmlns="http://www.w3.org/2000/svg">`.
   */
  function Header(width: int, height: int): string
  {
    Join(HeaderFields(width, height), '"')
  }

  function HeaderFields(width: int, height: int): seq<string>
  {
    ["<svg width=", ShowInt(width), " height=", ShowInt(height),
     " viewBox=", Join(["0", "0", ShowInt(width), ShowInt(height)], ' '),
     " fill=", "none", " xmlns=", "http://www.w3.org/2000/svg", ">"]
  }

  /**
   * The `<circle>` element for the lit pixel `c`, written as the pieces
   * between its double quotes: `<circle cx="CX" cy="CY" r="R" fill="white"/>`
   * with `CX = (x + 1) * (radius * 2)` and `CY = (y + 1) * (radius * 2)`.
   */
  function CircleTag(c: Cell, radius: int): string
  {
    Join(CircleFields(c, radius), '"')
  }

  function CircleFields(c: Cell, radius: int): seq<string>
  {
    ["<circle cx=", ShowInt((c.x + 1) * (radius * 2)), " cy=", ShowInt((c.y + 1) * (radius * 2)),
     " r=", ShowInt(radius), " fill=", "white", "/>"]
  }

  /** The circle elements for `dots`, each preceded by a line break. */
  function Circles(dots: seq<Cell>, radius: int): string
  {
    if |dots| == 0 then ""
    else Circles(dots[..|dots| - 1], radius) + "\n" + CircleTag(dots[|dots| - 1], radius)
  }

  /**
   * The whole document: the header for a `2r`-per-pixel canvas, one line
   * per lit pixel, and the closing tag on a line of its own.
   */
  function Svg(img: Image, radius: int, threshold: int): string
    requires img.Valid()
  {
    Header(radius * 2 * img.width, radius * 2 * img.height)
    + Circles(Dots(img, threshold), radius) + "\n" + "</svg>"
  }

  /**
   * `pixels_to_dotmatrix(image, radius, threshold)`: walks the columns and,
   * inside each, the rows, appending a circle for every lit pixel.
   */
  method PixelsToDotMatrix(img: Image, radius: int, threshold: int) returns (svg: string)
    requires img.Valid()
    ensures svg == Svg(img, radius, threshold)
  {
    var dmWidth := radius * 2 * img.width;
    var dmHeight := radius * 2 * img.height;
    svg := Header(dmWidth, dmHeight);
    ghost var header := svg;
    var x := 0;
    while x < img.width
      invariant x <= img.width
      invariant svg == header + Circles(DotsBefore(img, threshold, x), radius)
    {
      svg := AppendColumn(img, radius, threshold, x, svg, header);
      x := x + 1;
    }
    assert svg + "\n" + "</svg>" == Svg(img, radius, threshold);
    svg := svg + "\n";
    svg := svg + "</svg>";
  }

  /** The inner loop of `pixels_to_dotmatrix`: the rows of column `x`, top to bottom. */
  method AppendColumn(img: Image, radius: int, threshold: int, x: nat, text: string, ghost header: string)
    returns (svg: string)
    requires img.Valid() && x < img.width
    requires text == header + Circles(DotsBefore(img, threshold, x), radius)
    ensures svg == header + Circles(DotsBefore(img, threshold, x + 1), radius)
  {
    svg := text;
    assert DotsBefore(img, threshold, x) + [] == DotsBefore(img, threshold, x);
    var y: nat := 0;
    while y < img.height
      invariant y <= img.height
      invariant WrittenUpTo(img, radius, threshold, header, x, y, svg)
    {
      var color := img.GetPixel(x, y);
      if ChannelSum(color) < threshold {
        SkipPixel(img, radius, threshold, header, x, y, svg);
        y := y + 1;
        continue;
      }
      EmitPixel(img, radius, threshold, header, x, y, svg);
      svg := svg + "\n";
      svg := svg + CircleTag(Cell(x, y), radius);
      y := y + 1;
    }
  }

  /** The text holds the header and the circles of every pixel before `(x, y)` in column-major order. */
  ghost predicate WrittenUpTo(img: Image, radius: int, threshold: int, header: string, x: nat, y: nat, svg: string)
    requires img.Valid() && x < img.width && y <= img.height
  {
    svg == header + Circles(DotsBefore(img, threshold, x) + ColumnDots(img, threshold, x, y), radius)
  }

  /** A pixel below the threshold adds no dot to its column. */
  lemma SkipPixel(img: Image, radius: int, threshold: int, header: string, x: nat, y: nat, svg: string)
    requires img.Valid() && x < img.width && y < img.height
    requires ChannelSum(img.GetPixel(x, y)) < threshold
    requires WrittenUpTo(img, radius, threshold, header, x, y, svg)
    ensures WrittenUpTo(img, radius, threshold, header, x, y + 1, svg)
  {
    var column := ColumnDots(img, threshold, x, y);
    assert ColumnDots(img, threshold, x, y + 1) == column + [];
    assert column + [] == column;
  }

  /** A lit pixel appends a line break and its circle, and becomes the next dot. */
  lemma EmitPixel(img: Image, radius: int, threshold: int, header: string, x: nat, y: nat, svg: string)
    requires img.Valid() && x < img.width && y < img.height
    requires ChannelSum(img.GetPixel(x, y)) >= threshold
    requires WrittenUpTo(img, radius, threshold, header, x, y, svg)
    ensures WrittenUpTo(img, radius, threshold, header, x, y + 1, svg + "\n" + CircleTag(Cell(x, y), radius))
  {
    var dots := DotsBefore(img, threshold, x) + ColumnDots(img, threshold, x, y);
    assert ColumnDots(img, threshold, x, y + 1) == ColumnDots(img, threshold, x, y) + [Cell(x, y)];
    assert DotsBefore(img, threshold, x) + ColumnDots(img, threshold, x, y + 1) == dots + [Cell(x, y)];
    CirclesSnoc(dots, Cell(x, y), radius);
    var line := CircleTag(Cell(x, y), radius);
    assert header + Circles(dots, radius) + "\n" + line == header + (Circles(dots, radius) + "\n" + line);
  }

  /** The circles of one more dot: a line break and its circle at the end. */
  lemma CirclesSnoc(dots: seq<Cell>, c: Cell, radius: int)
    ensures Circles(dots + [c], radius) == Circles(dots, radius) + "\n" + CircleTag(c, radius)
  {
    assert (dots + [c])[..|dots|] == dots;
  }

  // ---------------------------------------------------------------------
  // Which pixels get a circle
  // ---------------------------------------------------------------------

  lemma {:induction false} ColumnDotsMembers(img: Image, threshold: int, x: nat, y: nat, c: Cell)
    requires img.Valid() && x < img.width && y <= img.height
    ensures c in ColumnDots(img, threshold, x, y) <==> c.x == x && c.y < y && Lit(img, threshold, x, c.y)
  {
    if y > 0 {
      ColumnDotsMembers(img, threshold, x, y - 1, c);
    }
  }

  lemma {:induction false} DotsBeforeMembers(img: Image, threshold: int, x: nat, c: Cell)
    requires img.Valid() && x <= img.width
    ensures c in DotsBefore(img, threshold, x) <==> c.x < x && c.y < img.height && Lit(img, threshold, c.x, c.y)
  {
    if x > 0 {
      DotsBeforeMembers(img, threshold, x - 1, c);
      ColumnDotsMembers(img, threshold, x - 1, img.height, c);
    }
  }

  /** A circle is emitted for pixel `(x, y)` exactly when its channel sum reaches the threshold. */
  lemma DotsAreLitPixels(img: Image, threshold: int, x: nat, y: nat)
    requires img.Valid()
    ensures Cell(x, y) in Dots(img, threshold) <==> x < img.width && y < img.height && Lit(img, threshold, x, y)
  {
    DotsBeforeMembers(img, threshold, img.width, Cell(x, y));
  }

  // ---------------------------------------------------------------------
  // In which order
  // ---------------------------------------------------------------------

  /** Column-major order: by column first, then by row. */
  predicate Precedes(a: Cell, b: Cell)
  {
    a.x < b.x || (a.x == b.x && a.y < b.y)
  }

  predicate ColumnMajor(cells: seq<Cell>)
  {
    forall i, j :: 0 <= i < j < |cells| ==> Precedes(cells[i], cells[j])
  }

  lemma ConcatColumnMajor(a: seq<Cell>, b: seq<Cell>)
    requires ColumnMajor(a) && ColumnMajor(b)
    requires forall i, j :: 0 <= i < |a| && 0 <= j < |b| ==> Precedes(a[i], b[j])
    ensures ColumnMajor(a + b)
  {
    forall i, j | 0 <= i < j < |a + b| ensures Precedes((a + b)[i], (a + b)[j]) {
      if j < |a| {
      } else if i >= |a| {
        assert (a + b)[i] == b[i - |a|] && (a + b)[j] == b[j - |a|];
      } else {
        assert (a + b)[j] == b[j - |a|];
      }
    }
  }

  lemma {:induction false} ColumnDotsOrdered(img: Image, threshold: int, x: nat, y: nat)
    requires img.Valid() && x < img.width && y <= img.height
    ensures ColumnMajor(ColumnDots(img, threshold, x, y))
    ensures forall i :: 0 <= i < |ColumnDots(img, threshold, x, y)| ==>
      ColumnDots(img, threshold, x, y)[i].x == x && ColumnDots(img, threshold, x, y)[i].y < y
  {
    if y > 0 {
      ColumnDotsOrdered(img, threshold, x, y - 1);
      var rest := if Lit(img, threshold, x, y - 1) then [Cell(x, y - 1)] else [];
      ConcatColumnMajor(ColumnDots(img, threshold, x, y - 1), rest);
    }
  }

  lemma {:induction false} DotsBeforeOrdered(img: Image, threshold: int, x: nat)
    requires img.Valid() && x <= img.width
    ensures ColumnMajor(DotsBefore(img, threshold, x))
    ensures forall i :: 0 <= i < |DotsBefore(img, threshold, x)| ==> DotsBefore(img, threshold, x)[i].x < x
  {
    if x > 0 {
      DotsBeforeOrdered(img, threshold, x - 1);
      ColumnDotsOrdered(img, threshold, x - 1, img.height);
      ConcatColumnMajor(DotsBefore(img, threshold, x - 1), ColumnDots(img, threshold, x - 1, img.height));
    }
  }

  /** Circles come column by column (x outer), top to bottom within a column (y inner), each pixel once. */
  lemma DotsInColumnMajorOrder(img: Image, threshold: int)
    requires img.Valid()
    ensures ColumnMajor(Dots(img, threshold))
  {
    DotsBeforeOrdered(img, threshold, img.width);
  }

  // ---------------------------------------------------------------------
  // How many
  // ---------------------------------------------------------------------

  /** The lit pixels as a set. */
  function LitPixels(img: Image, threshold: int): set<Cell>
    requires img.Valid()
  {
    set x: nat, y: nat | x < img.width && y < img.height && Lit(img, threshold, x, y) :: Cell(x, y)
  }

  lemma {:induction false} OrderedHasNoDuplicates(cells: seq<Cell>)
    requires ColumnMajor(cells)
    ensures |set c | c in cells| == |cells|
  {
    if |cells| > 0 {
      var init := cells[..|cells| - 1];
      OrderedHasNoDuplicates(init);
      var last := cells[|cells| - 1];
      assert (set c | c in cells) == (set c | c in init) + {last};
      assert last !in init;
    }
  }

  /** The number of circles is the number of pixels meeting the threshold. */
  lemma CircleCountIsLitPixelCount(img: Image, threshold: int)
    requires img.Valid()
    ensures |Dots(img, threshold)| == |LitPixels(img, threshold)|
  {
    var dots := Dots(img, threshold);
    DotsInColumnMajorOrder(img, threshold);
    OrderedHasNoDuplicates(dots);
    forall c ensures c in dots <==> c in LitPixels(img, threshold) {
      DotsAreLitPixels(img, threshold, c.x, c.y);
    }
    assert (set c | c in dots) == LitPixels(img, threshold);
  }

  lemma {:induction false} ColumnDotsAtMost(img: Image, threshold: int, x: nat, y: nat)
    requires img.Valid() && x < img.width && y <= img.height
    ensures |ColumnDots(img, threshold, x, y)| <= y
  {
    if y > 0 {
      ColumnDotsAtMost(img, threshold, x, y - 1);
    }
  }

  lemma {:induction false} DotsBeforeAtMost(img: Image, threshold: int, x: nat)
    requires img.Valid() && x <= img.width
    ensures |DotsBefore(img, threshold, x)| <= x * img.height
  {
    if x > 0 {
      DotsBeforeAtMost(img, threshold, x - 1);
      ColumnDotsAtMost(img, threshold, x - 1, img.height);
      assert x * img.height == (x - 1) * img.height + img.height;
    }
  }

  /** There are at most `width * height` circles. */
  lemma CircleCountAtMostPixels(img: Image, threshold: int)
    requires img.Valid()
    ensures |Dots(img, threshold)| <= img.width * img.height
  {
    DotsBeforeAtMost(img, threshold, img.width);
  }

  // ---------------------------------------------------------------------
  // How the document reads back
  // ---------------------------------------------------------------------

  /** The circle elements for `dots`, one per dot, in order. */
  function CircleTags(dots: seq<Cell>, radius: int): (tags: seq<string>)
    ensures |tags| == |dots|
  {
    seq(|dots|, i requires 0 <= i < |dots| => CircleTag(dots[i], radius))
  }

  lemma HeaderIsOneLine(width: int, height: int)
    ensures '\n' !in Header(width, height)
  {
    ShowIntIsOneToken(width);
    ShowIntIsOneToken(height);
    JoinLeavesOut(["0", "0", ShowInt(width), ShowInt(height)], ' ', '\n');
    JoinLeavesOut(HeaderFields(width, height), '"', '\n');
  }

  lemma CircleTagIsOneLine(c: Cell, radius: int)
    ensures '\n' !in CircleTag(c, radius)
  {
    ShowIntIsOneToken((c.x + 1) * (radius * 2));
    ShowIntIsOneToken((c.y + 1) * (radius * 2));
    ShowIntIsOneToken(radius);
    JoinLeavesOut(CircleFields(c, radius), '"', '\n');
  }

  lemma {:induction false} CirclesAsLines(head: string, dots: seq<Cell>, radius: int)
    ensures head + Circles(dots, radius) == Join([head] + CircleTags(dots, radius), '\n')
  {
    if |dots| > 0 {
      var init := dots[..|dots| - 1];
      CirclesAsLines(head, init, radius);
      assert CircleTags(dots, radius) == CircleTags(init, radius) + [CircleTag(dots[|dots| - 1], radius)];
      JoinSnoc([head] + CircleTags(init, radius), CircleTag(dots[|dots| - 1], radius), '\n');
      assert [head] + CircleTags(dots, radius) == [head] + CircleTags(init, radius) + [CircleTag(dots[|dots| - 1], radius)];
    }
  }

  /**
   * Read line by line, the document is the header, then one line per
   * circle in the order of `Dots`, then the closing `</svg>`: each circle
   * follows exactly one line break, and the document ends with a line
   * break and `</svg>`.
   */
  lemma SvgLines(img: Image, radius: int, threshold: int)
    requires img.Valid()
    ensures Split(Svg(img, radius, threshold), '\n')
      == [Header(radius * 2 * img.width, radius * 2 * img.height)]
         + CircleTags(Dots(img, threshold), radius) + ["</svg>"]
  {
    var header := Header(radius * 2 * img.width, radius * 2 * img.height);
    var dots := Dots(img, threshold);
    var lines := [header] + CircleTags(dots, radius);
    CirclesAsLines(header, dots, radius);
    JoinSnoc(lines, "</svg>", '\n');
    assert Svg(img, radius, threshold) == Join(lines + ["</svg>"], '\n');
    HeaderIsOneLine(radius * 2 * img.width, radius * 2 * img.height);
    forall i | 0 <= i < |lines + ["</svg>"]| ensures '\n' !in (lines + ["</svg>"])[i] {
      if 1 <= i < |lines| {
        CircleTagIsOneLine(dots[i - 1], radius);
      }
    }
    SplitJoin(lines + ["</svg>"], '\n');
  }

  /**
   * Read attribute by attribute, a circle element has centre
   * `((x + 1) * 2r, (y + 1) * 2r)`, radius `r` and a white fill.
   */
  lemma CircleAttributes(c: Cell, radius: int)
    ensures var fields := Split(CircleTag(c, radius), '"');
      |fields| == 9 && fields[0] == "<circle cx=" && fields[2] == " cy=" && fields[4] == " r="
      && ParseInt(fields[1]) == Some((c.x + 1) * (radius * 2))
      && ParseInt(fields[3]) == Some((c.y + 1) * (radius * 2))
      && ParseInt(fields[5]) == Some(radius)
      && fields[6] == " fill=" && fields[7] == "white" && fields[8] == "/>"
  {
    var cx, cy := (c.x + 1) * (radius * 2), (c.y + 1) * (radius * 2);
    CircleFieldsUnquoted(c, radius);
    SplitJoin(CircleFields(c, radius), '"');
    assert Split(CircleTag(c, radius), '"') == CircleFields(c, radius);
    ParseShowInt(cx);
    ParseShowInt(cy);
    ParseShowInt(radius);
  }

  lemma CircleFieldsUnquoted(c: Cell, radius: int)
    ensures forall i :: 0 <= i < |CircleFields(c, radius)| ==> '"' !in CircleFields(c, radius)[i]
  {
    ShowIntIsOneToken((c.x + 1) * (radius * 2));
    ShowIntIsOneToken((c.y + 1) * (radius * 2));
    ShowIntIsOneToken(radius);
  }

  /**
   * Read attribute by attribute, the header declares width `w` and height
   * `h`, and its viewBox repeats the same two numbers after the origin.
   */
  lemma HeaderAttributes(w: int, h: int)
    ensures var fields := Split(Header(w, h), '"');
      |fields| == 11 && fields[0] == "<svg width=" && fields[2] == " height=" && fields[4] == " viewBox="
      && ParseInt(fields[1]) == Some(w) && ParseInt(fields[3]) == Some(h)
      && Split(fields[5], ' ') == ["0", "0", ShowInt(w), ShowInt(h)]
      && fields[6] == " fill=" && fields[7] == "none"
      && fields[8] == " xmlns=" && fields[9] == "http://www.w3.org/2000/svg" && fields[10] == ">"
  {
    var viewBox := ["0", "0", ShowInt(w), ShowInt(h)];
    HeaderFieldsUnquoted(w, h);
    SplitJoin(HeaderFields(w, h), '"');
    assert Split(Header(w, h), '"') == HeaderFields(w, h);
    ViewBoxReadsBack(w, h);
    ParseShowInt(w);
    ParseShowInt(h);
  }

  lemma HeaderFieldsUnquoted(w: int, h: int)
    ensures forall i :: 0 <= i < |HeaderFields(w, h)| ==> '"' !in HeaderFields(w, h)[i]
  {
    ShowIntIsOneToken(w);
    ShowIntIsOneToken(h);
    JoinLeavesOut(["0", "0", ShowInt(w), ShowInt(h)], ' ', '"');
  }

  lemma ViewBoxReadsBack(w: int, h: int)
    ensures Split(Join(["0", "0", ShowInt(w), ShowInt(h)], ' '), ' ') == ["0", "0", ShowInt(w), ShowInt(h)]
  {
    ShowIntIsOneToken(w);
    ShowIntIsOneToken(h);
    SplitJoin(["0", "0", ShowInt(w), ShowInt(h)], ' ');
  }
}
