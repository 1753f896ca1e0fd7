/** Bitmap helpers: choosing the SVG document to render, thresholding the rendered
    alpha channel into rows of ink flags, and the grayscale image of a bitmap. The
    SVG parser and renderer are libraries outside this model: the parse is a
    function parameter and the rendered alpha channel is an input. */
module Util {
  import opened Base

  /** Alpha strictly above this is ink. */
  const INK_ALPHA := 128

  /** Gray levels of ink and of paper in a written bitmap. */
  const INK_GRAY := 0
  const PAPER_GRAY := 255

  /** The document rendered instead of an SVG that does not parse: a page-sized
      SVG with the word ERROR! on it. */
  const FALLBACK_SVG: string :=
    "<svg width='1404' height='1872' xmlns='http://www.w3.org/2000/svg'><text x='300' y='1285' font-family='Noto Sans' font-size='24'>ERROR!</text></svg>"

  /** What the SVG parser yields. */
  datatype Parsed<T> = Tree(tree: T) | ParseError(message: string)

  /** The tree `svg_to_bitmap` renders: the parsed document, or, when it does not
      parse, the parsed fallback; `None` only when the fallback does not parse
      either, the one error the function returns. */
  function ChooseTree<T>(svg: string, parse: string -> Parsed<T>): (r: Option<T>)
    ensures parse(svg).Tree? ==> r == Some(parse(svg).tree)
    ensures parse(svg).ParseError? && parse(FALLBACK_SVG).Tree? ==> r == Some(parse(FALLBACK_SVG).tree)
    ensures r.None? <==> parse(svg).ParseError? && parse(FALLBACK_SVG).ParseError?
  {
    match parse(svg)
    case Tree(t) => Some(t)
    case ParseError(_) =>
      match parse(FALLBACK_SVG)
      case Tree(t) => Some(t)
      case ParseError(_) => None
  }

  /** A parse error of the input is never reported: once the fallback parses, a tree
      is always chosen, and for an input that does not parse it is the fallback's. */
  lemma ParseErrorIsNotReturned<T>(svg: string, parse: string -> Parsed<T>)
    requires parse(FALLBACK_SVG).Tree?
    ensures ChooseTree(svg, parse).Some?
    ensures parse(svg).ParseError? ==> ChooseTree(svg, parse) == Some(parse(FALLBACK_SVG).tree)
  {
  }

  function Ink(alpha: Byte): bool
  {
    alpha > INK_ALPHA
  }

  /** One row of flags: ink where the alpha is strictly above 128. */
  function InkRow(alpha: seq<Byte>): (row: seq<bool>)
    ensures |row| == |alpha|
    ensures forall x :: 0 <= x < |alpha| ==> row[x] == (alpha[x] > INK_ALPHA)
  {
    seq(|alpha|, x requires 0 <= x < |alpha| => Ink(alpha[x]))
  }

  /** The pixel alphas cut into rows of `width` (the last row holds what is left)
      and thresholded. */
  function Threshold(alpha: seq<Byte>, width: nat): (rows: seq<seq<bool>>)
    requires width > 0
    ensures forall y :: 0 <= y < |rows| ==> 0 < |rows[y]| <= width
    ensures |alpha| > 0 <==> |rows| > 0
    decreases |alpha|
  {
    if |alpha| == 0 then []
    else if |alpha| <= width then [InkRow(alpha)]
    else [InkRow(alpha[..width])] + Threshold(alpha[width..], width)
  }

  /** Given exactly width * height alphas, thresholding yields `height` rows. */
  lemma {:induction false} ThresholdLength(alpha: seq<Byte>, width: nat, height: nat)
    requires width > 0 && |alpha| == width * height
    ensures |Threshold(alpha, width)| == height
  {
    if height > 1 {
      MulSucc(width, height - 1);
      MulMonotone(1, height - 1, width);
      ThresholdLength(alpha[width..], width, height - 1);
    } else if height == 1 {
      assert |alpha| == width;
    }
  }

  /** Given exactly width * height alphas, row y of the thresholded bitmap is the
      thresholded slice y * width .. (y + 1) * width. */
  lemma {:induction false} ThresholdRow(alpha: seq<Byte>, width: nat, height: nat, y: nat)
    requires width > 0 && |alpha| == width * height && y < height
    ensures |Threshold(alpha, width)| == height
    ensures y * width + width <= |alpha|
    ensures Threshold(alpha, width)[y] == InkRow(alpha[y * width..y * width + width])
  {
    ThresholdLength(alpha, width, height);
    MulSucc(width, height - 1);
    MulNonNegative(width, height - 1);
    if y == 0 {
      if |alpha| == width {
        assert alpha[..width] == alpha;
      }
      assert alpha[0..width] == alpha[..width];
    } else {
      MulMonotone(1, height - 1, width);
      var rest := alpha[width..];
      ThresholdRow(rest, width, height - 1, y - 1);
      MulSucc(width, y - 1);
      assert Threshold(alpha, width)[y] == Threshold(rest, width)[y - 1];
      assert rest[(y - 1) * width..(y - 1) * width + width] == alpha[y * width..y * width + width];
    }
  }

  lemma MulSucc(w: int, n: int)
    ensures w * (n + 1) == w * n + w && (n + 1) * w == n * w + w && w * n == n * w
  {
  }

  /** Given exactly width * height alphas, thresholding yields `height` rows of
      exactly `width` flags, and flag (x, y) is ink iff alpha y * width + x is
      strictly above 128. */
  lemma ThresholdShape(alpha: seq<Byte>, width: nat, height: nat)
    requires width > 0 && |alpha| == width * height
    ensures |Threshold(alpha, width)| == height
    ensures forall y :: 0 <= y < height ==> |Threshold(alpha, width)[y]| == width
    ensures forall y, x :: 0 <= y < height && 0 <= x < width ==>
      GridIndex(x, y, width) < |alpha| && Threshold(alpha, width)[y][x] == Ink(alpha[GridIndex(x, y, width)])
  {
    ThresholdLength(alpha, width, height);
    forall y | 0 <= y < height
      ensures |Threshold(alpha, width)[y]| == width
    {
      ThresholdCells(alpha, width, height, y);
    }
    forall y, x | 0 <= y < height && 0 <= x < width
      ensures GridIndex(x, y, width) < |alpha| && Threshold(alpha, width)[y][x] == Ink(alpha[GridIndex(x, y, width)])
    {
      ThresholdCells(alpha, width, height, y);
    }
  }

  /** Row y of the thresholded bitmap, cell by cell. */
  lemma ThresholdCells(alpha: seq<Byte>, width: nat, height: nat, y: nat)
    requires width > 0 && |alpha| == width * height && y < height
    ensures |Threshold(alpha, width)| == height && |Threshold(alpha, width)[y]| == width
    ensures forall x :: 0 <= x < width ==>
      GridIndex(x, y, width) < |alpha| && Threshold(alpha, width)[y][x] == Ink(alpha[GridIndex(x, y, width)])
  {
    ThresholdRow(alpha, width, height, y);
    var row := alpha[y * width..y * width + width];
    forall x | 0 <= x < width
      ensures GridIndex(x, y, width) < |alpha| && InkRow(row)[x] == Ink(alpha[GridIndex(x, y, width)])
    {
      RowCell(alpha, width, y, x);
    }
  }

  /** Cell x of the thresholded slice for row y is the flag of alpha y * width + x. */
  lemma RowCell(alpha: seq<Byte>, width: nat, y: nat, x: nat)
    requires y * width + width <= |alpha| && x < width
    ensures GridIndex(x, y, width) < |alpha|
    ensures InkRow(alpha[y * width..y * width + width])[x] == Ink(alpha[GridIndex(x, y, width)])
  {
  }

  /** `svg_to_bitmap` given the parse and the renderer, which fills the width x height
      pixmap and yields its alphas row by row (a zero size makes the source panic,
      hence the precondition). The bitmap has `height` rows of `width` flags, ink
      exactly where the chosen tree renders an alpha above 128; an input that does
      not parse is replaced by the fallback document, and only a fallback that does
      not parse either yields no bitmap. */
  function SvgToBitmap<T(!new)>(svg: string, width: nat, height: nat, parse: string -> Parsed<T>,
                                render: T -> seq<Byte>): (r: Option<seq<seq<bool>>>)
    requires width > 0 && height > 0
    requires forall t :: |render(t)| == width * height
    ensures r.None? <==> parse(svg).ParseError? && parse(FALLBACK_SVG).ParseError?
    ensures r.Some? ==> |r.value| == height && forall y :: 0 <= y < height ==> |r.value[y]| == width
    ensures r.Some? ==> forall y, x :: 0 <= y < height && 0 <= x < width ==>
      GridIndex(x, y, width) < width * height &&
      r.value[y][x] == Ink(render(ChooseTree(svg, parse).value)[GridIndex(x, y, width)])
    ensures parse(svg).ParseError? && parse(FALLBACK_SVG).Tree? ==>
      r == Some(Threshold(render(parse(FALLBACK_SVG).tree), width))
  {
    match ChooseTree(svg, parse)
    case None => None
    case Some(t) =>
      ThresholdShape(render(t), width, height);
      Some(Threshold(render(t), width))
  }

  /** The gray level `write_bitmap_to_file` leaves at (x, y): ink black, paper
      white, and black (the blank image's value) where a short row has no pixel. */
  function GrayAt(bitmap: seq<seq<bool>>, x: int, y: int): Byte
    requires 0 <= y < |bitmap| && 0 <= x
  {
    if x < |bitmap[y]| then (if bitmap[y][x] then INK_GRAY else PAPER_GRAY) else 0
  }

  /** The image `write_bitmap_to_file` saves, indexed [y, x]: width is the first
      row's length, height the number of rows. An empty bitmap, or a row longer
      than the first, makes the source panic, hence the preconditions. */
  method WriteBitmap(bitmap: seq<seq<bool>>) returns (img: array2<Byte>)
    requires |bitmap| > 0
    requires forall y :: 0 <= y < |bitmap| ==> |bitmap[y]| <= |bitmap[0]|
    ensures img.Length0 == |bitmap| && img.Length1 == |bitmap[0]|
    ensures forall y, x :: 0 <= y < img.Length0 && 0 <= x < img.Length1 ==> img[y, x] == GrayAt(bitmap, x, y)
  {
    var width := |bitmap[0]|;
    var height := |bitmap|;
    img := new Byte[height, width]((_, _) => 0);
    for y := 0 to height
      invariant forall y', x :: 0 <= y' < y && 0 <= x < width ==> img[y', x] == GrayAt(bitmap, x, y')
      invariant forall y', x :: y <= y' < height && 0 <= x < width ==> img[y', x] == 0
    {
      var row := bitmap[y];
      for x := 0 to |row|
        invariant forall y', x' :: 0 <= y' < y && 0 <= x' < width ==> img[y', x'] == GrayAt(bitmap, x', y')
        invariant forall x' :: 0 <= x' < x ==> img[y, x'] == GrayAt(bitmap, x', y)
        invariant forall x' :: x <= x' < width ==> img[y, x'] == 0
        invariant forall y', x' :: y < y' < height && 0 <= x' < width ==> img[y', x'] == 0
      {
        img[y, x] := if row[x] then INK_GRAY else PAPER_GRAY;
      }
    }
  }

  /** Writing a thresholded render: pixel (x, y) of the image is black exactly when
      the rendered alpha there is above 128, and white otherwise. */
  lemma GrayOfThreshold(alpha: seq<Byte>, width: nat, height: nat, x: int, y: int)
    requires width > 0 && height > 0 && |alpha| == width * height
    requires 0 <= x < width && 0 <= y < height
    ensures GridIndex(x, y, width) < |alpha| && |Threshold(alpha, width)| == height
    ensures GrayAt(Threshold(alpha, width), x, y) == if Ink(alpha[GridIndex(x, y, width)]) then INK_GRAY else PAPER_GRAY
  {
    ThresholdShape(alpha, width, height);
  }
}
