/** Colour segmentation (src/color_detection.py). The image operations
    (blur, colour conversion, thresholding, morphology, contour extraction,
    contour and hull areas, bounding rectangles) are done by the vision
    library; here a frame is represented by what those operations report:
    for each colour mask, its external contours, each with its area, its
    convex-hull area and its bounding box. What this module keeps is the
    arithmetic and the decisions made on those values. */
module ColorDetection {
  import opened Common

  // ---------------------------------------------------------------------
  // The HSV range table and the raw colour masks
  // ---------------------------------------------------------------------

  /** A pixel in the vision library's 8-bit HSV encoding (hue 0..180). */
  datatype Hsv = Hsv(h: int, s: int, v: int)

  /** An inclusive box of HSV values, as passed to the thresholding call. */
  datatype HsvRange = HsvRange(lower: Hsv, upper: Hsv)

  /** The colour names in the order the table lists them; detection visits them in this order. */
  const TableNames: seq<string> := ["Red", "Green", "Blue"]

  /** The ranges whose union makes a colour's mask. Red wraps around the hue circle. */
  function HsvRanges(c: Colour): (r: seq<HsvRange>)
    ensures 1 <= |r| <= 2 && (|r| == 2 <==> c == Red)
    ensures forall k | 0 <= k < |r| ::
      && 0 <= r[k].lower.h <= r[k].upper.h <= 180
      && 0 <= r[k].lower.s <= r[k].upper.s <= 255
      && 0 <= r[k].lower.v <= r[k].upper.v <= 255
  {
    match c
    case Red => [HsvRange(Hsv(0, 100, 100), Hsv(10, 255, 255)), HsvRange(Hsv(160, 100, 100), Hsv(180, 255, 255))]
    case Green => [HsvRange(Hsv(35, 50, 50), Hsv(90, 255, 255))]
    case Blue => [HsvRange(Hsv(95, 50, 50), Hsv(135, 255, 255))]
  }

  /** The table lookup at the head of mask creation: the ranges of a named
      colour, or None when the name is not in the table (no mask is made). */
  function MaskRanges(name: string): (r: Option<seq<HsvRange>>)
    ensures r.None? <==> forall c: Colour :: ColourName(c) != name
    ensures forall c: Colour :: ColourName(c) == name ==> r == Some(HsvRanges(c))
  {
    match ColourNamed(name)
    case None => None
    case Some(c) => Some(HsvRanges(c))
  }

  /** The inclusive per-channel test of the thresholding call. */
  predicate InRange(p: Hsv, r: HsvRange)
  {
    && r.lower.h <= p.h <= r.upper.h
    && r.lower.s <= p.s <= r.upper.s
    && r.lower.v <= p.v <= r.upper.v
  }

  /** A pixel is set in a colour's mask, before morphological cleaning, when
      one of the colour's ranges holds it (the masks are or-ed together). */
  predicate InRawMask(c: Colour, p: Hsv)
  {
    exists k :: 0 <= k < |HsvRanges(c)| && InRange(p, HsvRanges(c)[k])
  }

  /** The hue intervals of different colours do not overlap, so no pixel is
      set in two colours' raw masks. */
  lemma RawMasksDisjoint(c1: Colour, c2: Colour, p: Hsv)
    requires InRawMask(c1, p) && InRawMask(c2, p)
    ensures c1 == c2
  {
    var k1 :| 0 <= k1 < |HsvRanges(c1)| && InRange(p, HsvRanges(c1)[k1]);
    var k2 :| 0 <= k2 < |HsvRanges(c2)| && InRange(p, HsvRanges(c2)[k2]);
  }

  // ---------------------------------------------------------------------
  // Contour acceptance
  // ---------------------------------------------------------------------

  /** An axis-aligned bounding box (x, y, w, h). */
  datatype BBox = BBox(x: int, y: int, w: int, h: int)

  /** What the vision library reports for one external contour of a mask. */
  datatype Contour = Contour(area: real, hullArea: real, bbox: BBox)

  /** The default minimum area of the detector. */
  const DefaultMinArea: real := 1000.0

  /** Contour area over convex-hull area; a hull of no area counts as solidity 0. */
  function Solidity(area: real, hullArea: real): (r: real)
    ensures hullArea > 0.0 ==> r * hullArea == area
    ensures hullArea <= 0.0 ==> r == 0.0
  {
    if hullArea > 0.0 then area / hullArea else 0.0
  }

  /** The filter of contour extraction: strictly larger than the minimum
      area and solidity strictly above 0.7. */
  predicate Accepted(cnt: Contour, minArea: real)
  {
    cnt.area > minArea && Solidity(cnt.area, cnt.hullArea) > 0.7
  }

  /** The acceptance rule without division: a contour is kept exactly when
      its area exceeds the minimum, its hull has positive area and ten times
      its area exceeds seven times the hull area. */
  lemma AcceptedWithoutDivision(cnt: Contour, minArea: real)
    ensures Accepted(cnt, minArea) <==>
      cnt.area > minArea && cnt.hullArea > 0.0 && 10.0 * cnt.area > 7.0 * cnt.hullArea
  {
    if cnt.hullArea > 0.0 {
      var q := cnt.area / cnt.hullArea;
      assert q == Solidity(cnt.area, cnt.hullArea);
      assert cnt.area == q * cnt.hullArea;
      if q > 0.7 {
        assert 10.0 * cnt.area == 10.0 * q * cnt.hullArea;
      } else {
        assert 7.0 * cnt.hullArea - 10.0 * cnt.area == (7.0 - 10.0 * q) * cnt.hullArea;
        RealProductNonNegative(7.0 - 10.0 * q, cnt.hullArea);
      }
    }
  }

  lemma RealProductNonNegative(x: real, y: real)
    requires x >= 0.0 && y >= 0.0
    ensures x * y >= 0.0
  {
  }

  /** The contours kept by contour extraction, in their original order. */
  function FindContours(contours: seq<Contour>, minArea: real): (kept: seq<Contour>)
    ensures |kept| <= |contours|
    ensures forall k | 0 <= k < |kept| :: Accepted(kept[k], minArea)
    ensures forall x :: multiset(kept)[x] == if Accepted(x, minArea) then multiset(contours)[x] else 0
  {
    if contours == [] then []
    else
      var front := FindContours(contours[..|contours| - 1], minArea);
      var last := contours[|contours| - 1];
      assert contours == contours[..|contours| - 1] + [last];
      if Accepted(last, minArea) then front + [last] else front
  }

  /** Filtering two runs of contours one after the other gives the two
      filtered runs one after the other: the filter keeps the input order. */
  lemma {:induction false} FindContoursKeepsOrder(a: seq<Contour>, b: seq<Contour>, minArea: real)
    ensures FindContours(a + b, minArea) == FindContours(a, minArea) + FindContours(b, minArea)
    decreases |b|
  {
    if b != [] {
      var b' := b[..|b| - 1];
      assert (a + b)[..|a + b| - 1] == a + b';
      assert b[..|b| - 1] == b';
      FindContoursKeepsOrder(a, b', minArea);
    } else {
      assert a + b == a;
    }
  }

  // ---------------------------------------------------------------------
  // From a contour to a detected object
  // ---------------------------------------------------------------------

  /** The frame's size as (height, width). */
  datatype FrameShape = FrameShape(height: int, width: int)

  /** The workspace the pixel frame is mapped onto, and the fixed object height. */
  const WorkspaceWidth: int := 600
  const WorkspaceHeight: int := 400
  const ObjectHeight: int := 20

  /** One detection, as handed to the tracker, the selector and the arm. */
  datatype DetectedObject = DetectedObject(
    pixelPos: Pixel,
    robotPos: Point3,
    size: (int, int),
    area: real,
    colour: Colour,
    bbox: BBox,
    id: string)

  /** Centre of a bounding box: x + w//2, y + h//2 (floor division). */
  function Centre(b: BBox): (c: Pixel)
    ensures b.w >= 0 ==> b.x <= c.x <= b.x + b.w
    ensures b.h >= 0 ==> b.y <= c.y <= b.y + b.h
    ensures b.w >= 1 ==> c.x < b.x + b.w
    ensures b.h >= 1 ==> c.y < b.y + b.h
  {
    Pixel(b.x + b.w / 2, b.y + b.h / 2)
  }

  /** int() of a true division by a positive number: truncation toward zero. */
  function TruncDiv(a: int, b: int): (q: int)
    requires b > 0
    ensures a >= 0 ==> q * b <= a < (q + 1) * b
    ensures a < 0 ==> q <= 0 && -q * b <= -a < (-q + 1) * b
  {
    if a >= 0 then a / b else -((-a) / b)
  }

  /** Linear mapping of a pixel centre into the workspace, at the fixed object height. */
  function ToWorkspace(c: Pixel, shape: FrameShape): (p: Point3)
    requires shape.width > 0 && shape.height > 0
    ensures p.z == ObjectHeight
    ensures 0 <= c.x < shape.width ==> 0 <= p.x < WorkspaceWidth
    ensures 0 <= c.y < shape.height ==> 0 <= p.y < WorkspaceHeight
  {
    ScaleBelow(c.x, WorkspaceWidth, shape.width);
    ScaleBelow(c.y, WorkspaceHeight, shape.height);
    Point3(TruncDiv(c.x * WorkspaceWidth, shape.width), TruncDiv(c.y * WorkspaceHeight, shape.height), ObjectHeight)
  }

  /** A coordinate below the frame size scales to one below the workspace size. */
  lemma ScaleBelow(a: int, n: int, d: int)
    requires n > 0 && d > 0
    ensures 0 <= a < d ==> 0 <= TruncDiv(a * n, d) < n
  {
    if 0 <= a < d {
      ScaleBelowIn(a, n, d);
    }
  }

  lemma ScaleBelowIn(a: int, n: int, d: int)
    requires 0 <= a < d && n > 0
    ensures 0 <= TruncDiv(a * n, d) < n
  {
    var p := a * n;
    assert 0 <= p by {
      MulNonNegative(a, n);
    }
    assert p < d * n by {
      MulNonNegative(d - a - 1, n);
      assert (d - a - 1) * n == d * n - p - n;
    }
    var q := p / d;
    assert q * d <= p;
    if q >= n {
      MulMonotone(n, q, d);
      assert false;
    }
  }

  lemma MulMonotone(a: int, b: int, d: int)
    requires a <= b && 0 <= d
    ensures a * d <= b * d
  {
    MulNonNegative(b - a, d);
    assert (b - a) * d == b * d - a * d;
  }

  lemma MulNonNegative(x: int, y: int)
    requires 0 <= x && 0 <= y
    ensures 0 <= x * y
  {
  }

  /** The mapping never reverses the order of two centres along an axis. */
  lemma ToWorkspaceMonotone(c1: Pixel, c2: Pixel, shape: FrameShape)
    requires shape.width > 0 && shape.height > 0
    ensures 0 <= c1.x <= c2.x ==> ToWorkspace(c1, shape).x <= ToWorkspace(c2, shape).x
    ensures 0 <= c1.y <= c2.y ==> ToWorkspace(c1, shape).y <= ToWorkspace(c2, shape).y
  {
    if 0 <= c1.x <= c2.x {
      assert c1.x * WorkspaceWidth <= c2.x * WorkspaceWidth;
      DivMonotone(c1.x * WorkspaceWidth, c2.x * WorkspaceWidth, shape.width);
    }
    if 0 <= c1.y <= c2.y {
      assert c1.y * WorkspaceHeight <= c2.y * WorkspaceHeight;
      DivMonotone(c1.y * WorkspaceHeight, c2.y * WorkspaceHeight, shape.height);
    }
  }

  lemma DivMonotone(a: int, b: int, d: int)
    requires 0 <= a <= b && d > 0
    ensures a / d <= b / d
  {
    var qa, qb := a / d, b / d;
    assert a == qa * d + a % d && 0 <= a % d < d;
    assert b == qb * d + b % d && 0 <= b % d < d;
    assert (qa - qb) * d < d;
    ProductBelowDivisor(qa - qb, d);
  }

  lemma ProductBelowDivisor(x: int, d: int)
    requires d > 0 && x * d < d
    ensures x <= 0
  {
    assert x * d - d == (x - 1) * d;
  }

  /** The identity string "<colour>_<cx>_<cy>": its '_'-separated fields are
      the colour's name and the two coordinates in decimal. */
  function ObjectId(c: Colour, centre: Pixel): (r: string)
    ensures Fields(r) == [ColourName(c), IntToString(centre.x), IntToString(centre.y)]
  {
    var xs, ys := IntToString(centre.x), IntToString(centre.y);
    IntToStringPlain(centre.x);
    IntToStringPlain(centre.y);
    assert '_' !in ColourName(c);
    FieldsOfJoin(ColourName(c), xs + "_" + ys);
    FieldsOfJoin(xs, ys);
    FieldsOfPlain(ys);
    assert ColourName(c) + "_" + xs + "_" + ys == ColourName(c) + "_" + (xs + "_" + ys);
    ColourName(c) + "_" + xs + "_" + ys
  }

  /** The '_'-separated fields of a string (Python's split on one character). */
  function Fields(s: string): (r: seq<string>)
    ensures |r| >= 1
  {
    if s == [] then [""]
    else
      var rest := Fields(s[1..]);
      if s[0] == '_' then [""] + rest else [[s[0]] + rest[0]] + rest[1..]
  }

  lemma {:induction false} FieldsOfPlain(a: string)
    requires '_' !in a
    ensures Fields(a) == [a]
  {
    if a != [] {
      FieldsOfPlain(a[1..]);
      assert [a[0]] + a[1..] == a;
    }
  }

  lemma {:induction false} FieldsOfJoin(a: string, b: string)
    requires '_' !in a
    ensures Fields(a + "_" + b) == [a] + Fields(b)
  {
    if a == [] {
      assert a + "_" + b == "_" + b;
      assert ("_" + b)[1..] == b;
    } else {
      assert (a + "_" + b)[1..] == a[1..] + "_" + b;
      FieldsOfJoin(a[1..], b);
      assert [a[0]] + a[1..] == a;
    }
  }

  /** Reads an identity back into its colour and centre. */
  function ParseId(id: string): Option<(Colour, Pixel)>
  {
    var f := Fields(id);
    if |f| != 3 then None
    else match (ColourNamed(f[0]), ParseInt(f[1]), ParseInt(f[2]))
      case (Some(c), Some(x), Some(y)) => Some((c, Pixel(x, y)))
      case _ => None
  }

  lemma IntToStringPlain(i: int)
    ensures '_' !in IntToString(i)
  {
  }

  /** The identity determines colour and centre: reading it back returns them. */
  lemma ObjectIdRoundTrip(c: Colour, centre: Pixel)
    ensures ParseId(ObjectId(c, centre)) == Some((c, centre))
  {
    ColourNameRoundTrip(c);
    IntToStringRoundTrip(centre.x);
    IntToStringRoundTrip(centre.y);
  }

  /** Two detections share an identity exactly when they have the same colour and centre. */
  lemma ObjectIdInjective(c1: Colour, p1: Pixel, c2: Colour, p2: Pixel)
    ensures ObjectId(c1, p1) == ObjectId(c2, p2) <==> c1 == c2 && p1 == p2
  {
    ObjectIdRoundTrip(c1, p1);
    ObjectIdRoundTrip(c2, p2);
  }

  /** The object built from one accepted contour of a colour's mask. */
  function ProcessContour(cnt: Contour, c: Colour, shape: FrameShape): (o: DetectedObject)
    requires shape.width > 0 && shape.height > 0
    ensures o.colour == c && o.bbox == cnt.bbox && o.size == (cnt.bbox.w, cnt.bbox.h) && o.area == cnt.area
    ensures o.pixelPos == Centre(cnt.bbox) && o.robotPos == ToWorkspace(o.pixelPos, shape)
    ensures o.id == ObjectId(c, o.pixelPos) && ParseId(o.id) == Some((c, o.pixelPos))
  {
    var centre := Centre(cnt.bbox);
    ObjectIdRoundTrip(c, centre);
    DetectedObject(centre, ToWorkspace(centre, shape), (cnt.bbox.w, cnt.bbox.h), cnt.area, c, cnt.bbox, ObjectId(c, centre))
  }

  /** One object per contour, in contour order. */
  function ProcessContours(contours: seq<Contour>, c: Colour, shape: FrameShape): (objs: seq<DetectedObject>)
    requires shape.width > 0 && shape.height > 0
    ensures |objs| == |contours|
    ensures forall k | 0 <= k < |objs| :: objs[k] == ProcessContour(contours[k], c, shape)
  {
    if contours == [] then []
    else [ProcessContour(contours[0], c, shape)] + ProcessContours(contours[1..], c, shape)
  }

  // ---------------------------------------------------------------------
  // Detection over all colours
  // ---------------------------------------------------------------------

  /** The contours the vision library extracts from each colour's cleaned mask. */
  datatype Segmentation = Segmentation(red: seq<Contour>, green: seq<Contour>, blue: seq<Contour>)
  {
    function Of(c: Colour): seq<Contour>
    {
      match c
      case Red => red
      case Green => green
      case Blue => blue
    }
  }

  /** The detection loop over a list of colour names: names without a mask
      contribute nothing, the others their processed, filtered contours. */
  function DetectNamed(names: seq<string>, seg: Segmentation, shape: FrameShape, minArea: real): (r: seq<DetectedObject>)
    requires shape.width > 0 && shape.height > 0
    ensures forall o | o in r :: ColourName(o.colour) in names && Detected(o, shape, minArea)
  {
    if names == [] then []
    else
      var here := match ColourNamed(names[0])
        case None => []
        case Some(c) => DetectColour(seg, c, shape, minArea);
      var rest := DetectNamed(names[1..], seg, shape, minArea);
      assert forall o | o in here :: ColourName(o.colour) == names[0];
      here + rest
  }

  /** What holds of every detection: it came from a contour larger than the
      minimum area; its robot position is its centre mapped into the
      workspace; and its identity is built from its colour and centre. */
  predicate Detected(o: DetectedObject, shape: FrameShape, minArea: real)
    requires shape.width > 0 && shape.height > 0
  {
    && o.area > minArea
    && o.robotPos == ToWorkspace(o.pixelPos, shape)
    && o.id == ObjectId(o.colour, o.pixelPos)
  }

  /** All detections of a frame: the table's colours in table order. */
  function DetectObjects(seg: Segmentation, shape: FrameShape, minArea: real): (r: seq<DetectedObject>)
    requires shape.width > 0 && shape.height > 0
    ensures forall o | o in r :: Detected(o, shape, minArea)
  {
    DetectNamed(TableNames, seg, shape, minArea)
  }

  /** The detections of one colour, as that colour's mask yields them. */
  function DetectColour(seg: Segmentation, c: Colour, shape: FrameShape, minArea: real): (r: seq<DetectedObject>)
    requires shape.width > 0 && shape.height > 0
    ensures forall o | o in r :: o.colour == c && Detected(o, shape, minArea)
  {
    var kept := FindContours(seg.Of(c), minArea);
    var r := ProcessContours(kept, c, shape);
    assert forall k | 0 <= k < |r| :: r[k] == ProcessContour(kept[k], c, shape) && Accepted(kept[k], minArea);
    r
  }

  lemma DetectNamedCons(name: string, rest: seq<string>, seg: Segmentation, shape: FrameShape, minArea: real)
    requires shape.width > 0 && shape.height > 0
    requires ColourNamed(name).Some?
    ensures DetectNamed([name] + rest, seg, shape, minArea) ==
      DetectColour(seg, ColourNamed(name).value, shape, minArea) + DetectNamed(rest, seg, shape, minArea)
  {
    assert ([name] + rest)[0] == name && ([name] + rest)[1..] == rest;
  }

  lemma DetectGreenBlue(seg: Segmentation, shape: FrameShape, minArea: real)
    requires shape.width > 0 && shape.height > 0
    ensures DetectNamed(["Green", "Blue"], seg, shape, minArea) ==
      DetectColour(seg, Green, shape, minArea) + DetectColour(seg, Blue, shape, minArea)
  {
    var blue: seq<string> := ["Blue"];
    assert blue == ["Blue"] + [];
    DetectNamedCons("Blue", [], seg, shape, minArea);
    assert ["Green", "Blue"] == ["Green"] + blue;
    DetectNamedCons("Green", blue, seg, shape, minArea);
  }

  /** Detection concatenates the red, then the green, then the blue
      detections, each the processed accepted contours of that colour's mask. */
  lemma DetectObjectsInTableOrder(seg: Segmentation, shape: FrameShape, minArea: real)
    requires shape.width > 0 && shape.height > 0
    ensures DetectObjects(seg, shape, minArea) ==
      DetectColour(seg, Red, shape, minArea) + DetectColour(seg, Green, shape, minArea) + DetectColour(seg, Blue, shape, minArea)
  {
    var r, g, b := DetectColour(seg, Red, shape, minArea), DetectColour(seg, Green, shape, minArea), DetectColour(seg, Blue, shape, minArea);
    var greenBlue: seq<string> := ["Green", "Blue"];
    assert TableNames == ["Red"] + greenBlue;
    DetectNamedCons("Red", greenBlue, seg, shape, minArea);
    DetectGreenBlue(seg, shape, minArea);
    ConcatAssociative(r, g, b);
  }

  lemma ConcatAssociative<T>(a: seq<T>, b: seq<T>, c: seq<T>)
    ensures a + (b + c) == a + b + c
  {
  }

  // ---------------------------------------------------------------------
  // Classification of a single HSV value
  // ---------------------------------------------------------------------

  /** The colour a single HSV value is classified as; None stands for "Other". */
  function Classify(p: Hsv): (r: Option<Colour>)
    ensures r.Some? ==> p.s > 50 && p.v > 50
    ensures r == Some(Red) <==> p.s > 50 && p.v > 50 && ((0 <= p.h <= 10) || (170 <= p.h <= 180))
    ensures r == Some(Green) <==> p.s > 50 && p.v > 50 && 35 <= p.h <= 85
    ensures r == Some(Blue) <==> p.s > 50 && p.v > 50 && 100 <= p.h <= 130
  {
    if p.s > 50 && p.v > 50 then
      if (0 <= p.h <= 10) || (170 <= p.h <= 180) then Some(Red)
      else if 35 <= p.h <= 85 then Some(Green)
      else if 100 <= p.h <= 130 then Some(Blue)
      else None
    else None
  }

  /** The classifier is narrower than the segmentation table: an 8-bit HSV
      value classified Green or Blue lies in that colour's raw mask, and one
      classified Red does when its saturation and value reach the red
      ranges' lower bound of 100. */
  lemma ClassifyWithinMask(p: Hsv)
    requires p.s <= 255 && p.v <= 255
    requires Classify(p).Some?
    requires Classify(p) == Some(Red) ==> p.s >= 100 && p.v >= 100
    ensures InRawMask(Classify(p).value, p)
  {
    var c := Classify(p).value;
    match c
    case Red =>
      if p.h <= 10 { assert InRange(p, HsvRanges(Red)[0]); } else { assert InRange(p, HsvRanges(Red)[1]); }
    case Green => assert InRange(p, HsvRanges(Green)[0]);
    case Blue => assert InRange(p, HsvRanges(Blue)[0]);
  }
}
