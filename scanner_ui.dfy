/**
 * What both versions of the sheet scanner share around their main loop:
 * the window constants, the inputs a loop iteration consumes (events, the
 * detector's view of the frame, the pointer), and the corner handles the
 * user drags.
 */
module ScannerUi {
  import opened SheetGeometry
  import opened Rounding

  /** Width of the camera view in the window. */
  const CAMERA_WIDTH: int := 600
  /** Stroke width of the drawing, CAMERA_WIDTH // 120. */
  const LINE_WIDTH: int := CAMERA_WIDTH / 120
  /** Half side of a corner handle's square, LINE_WIDTH * 3. */
  const HANDLE_RADIUS: int := LINE_WIDTH * 3
  /** Width of the downscaled copy the detector works on. */
  const IMAGE_WIDTH: int := 400

  datatype Option<T> = None | Some(value: T)

  /**
   * A warped image, given by what warp was called with: the corners of the
   * quadrilateral to straighten and the output size. The corner pairing that
   * decides the perspective transform is WarpCorners(corners, width, height).
   */
  datatype Warped = Warped(corners: seq<Point>, width: int, height: int)

  /** The cropped picture on screen: a warped image and the angle it was turned by. */
  datatype Shown = Shown(image: Warped, angle: int)

  /** Where the image comes from; the two versions number these differently. */
  datatype Mode = Camera | Still

  datatype Key = Escape | KeyQ | KeyR | OtherKey

  datatype Event = Quit | MouseDown | MouseUp | KeyUp(key: Key) | OtherEvent

  /**
   * What the detector sees in one camera frame: whether the thresholded
   * frame has any bright pixel, and the external contours it finds.
   */
  datatype Frame = Frame(notBlack: bool, candidates: seq<Candidate>)

  /**
   * One iteration's inputs: the pointer, the current frame, whether the
   * pointer is over the option label as rendered this iteration, and the
   * queued events in order.
   */
  datatype Input = Input(mouse: Point, frame: Frame, overLabel: bool, events: seq<Event>)

  /**
   * A height scaled with the aspect ratio kept:
   * round(initialH * targetWidth / initialW).
   */
  function ScaledHeight(initialW: int, initialH: int, targetWidth: int): int
    requires initialW > 0
  {
    RoundHalfEven((initialH * targetWidth) as real / initialW as real)
  }

  lemma HalfBelowQuotient(a: real, b: real)
    requires b > 0.0 && 2.0 * a > b
    ensures a / b > 0.5
  {
  }

  /** When initialH * targetWidth / initialW exceeds one half, the scaled height is at least one row. */
  lemma ScaledHeightPositive(initialW: int, initialH: int, targetWidth: int)
    requires initialW > 0 && targetWidth > 0 && 2 * initialH * targetWidth > initialW
    ensures ScaledHeight(initialW, initialH, targetWidth) >= 1
  {
    assert 2.0 * (initialH * targetWidth) as real > initialW as real;
    HalfBelowQuotient((initialH * targetWidth) as real, initialW as real);
  }

  /**
   * The pointer is inside the square handle drawn around corner c: the
   * half-open square [c.x - r, c.x + r) x [c.y - r, c.y + r).
   */
  predicate InHandle(c: Point, mouse: Point)
  {
    && c.x - HANDLE_RADIUS <= mouse.x < c.x - HANDLE_RADIUS + 2 * HANDLE_RADIUS
    && c.y - HANDLE_RADIUS <= mouse.y < c.y - HANDLE_RADIUS + 2 * HANDLE_RADIUS
  }

  /** Corner i is the first whose handle contains the pointer. */
  ghost predicate FirstHit(corners: seq<Point>, mouse: Point, i: int)
  {
    && 0 <= i < |corners|
    && InHandle(corners[i], mouse)
    && forall j :: 0 <= j < i ==> !InHandle(corners[j], mouse)
  }

  /**
   * The mouse-down hit test: the index of the first corner whose handle
   * contains the pointer, or -1 when the pointer is on none of them.
   */
  method PickCorner(corners: array<Point>, mouse: Point) returns (hit: int)
    requires corners.Length == 4
    ensures -1 <= hit < 4
    ensures hit == -1 <==> forall j :: 0 <= j < 4 ==> !InHandle(corners[j], mouse)
    ensures hit != -1 ==> FirstHit(corners[..], mouse, hit)
    ensures hit == HitIndex(corners[..], mouse)
  {
    hit := -1;
    for i := 0 to 4
      invariant forall j :: 0 <= j < i ==> !InHandle(corners[j], mouse)
    {
      if InHandle(corners[i], mouse) {
        hit := i;
        break;
      }
    }
  }

  /**
   * The hit test as a value: the index of the first corner whose handle
   * contains the pointer, or -1 when the pointer is on none of them.
   */
  function HitIndex(corners: seq<Point>, mouse: Point): (r: int)
    ensures -1 <= r < |corners|
    ensures r == -1 <==> forall j :: 0 <= j < |corners| ==> !InHandle(corners[j], mouse)
    ensures r != -1 ==> FirstHit(corners, mouse, r)
  {
    if |corners| == 0 then -1
    else if InHandle(corners[0], mouse) then 0
    else
      var r := HitIndex(corners[1..], mouse);
      if r == -1 then -1 else r + 1
  }

  /** At most one corner is the first hit. */
  lemma FirstHitUnique(corners: seq<Point>, mouse: Point, i: int, k: int)
    requires FirstHit(corners, mouse, i) && FirstHit(corners, mouse, k)
    ensures i == k
  {
  }

  /**
   * Where a held corner goes: its y follows the pointer, its x follows the
   * pointer only while the pointer is within the camera view and otherwise
   * stays put (it is not clamped to the view's edge).
   */
  function Dragged(c: Point, mouse: Point): (r: Point)
    ensures r.y == mouse.y
    ensures mouse.x <= CAMERA_WIDTH ==> r.x == mouse.x
    ensures mouse.x > CAMERA_WIDTH ==> r.x == c.x
    ensures r.x <= CAMERA_WIDTH || r.x == c.x
  {
    Point(if mouse.x <= CAMERA_WIDTH then mouse.x else c.x, mouse.y)
  }

  /** The corners after one iteration's drag: corner click - 1, when click names one, moved by Dragged. */
  function Moved(corners: seq<Point>, click: int, mouse: Point): seq<Point>
  {
    seq(|corners|, i requires 0 <= i < |corners| => if click == i + 1 then Dragged(corners[i], mouse) else corners[i])
  }

  /**
   * The per-iteration drag: corner click - 1 (when click names one) moves
   * with the pointer, the other three stay where they are.
   */
  method Drag(corners: array<Point>, click: int, mouse: Point)
    requires corners.Length == 4
    modifies corners
    ensures forall i :: 0 <= i < 4 ==>
      corners[i] == (if click == i + 1 then Dragged(old(corners[i]), mouse) else old(corners[i]))
    ensures corners[..] == Moved(old(corners[..]), click, mouse)
  {
    for i := 0 to 4
      invariant forall j :: 0 <= j < i ==>
        corners[j] == (if click == j + 1 then Dragged(old(corners[j]), mouse) else old(corners[j]))
      invariant forall j :: i <= j < 4 ==> corners[j] == old(corners[j])
    {
      if click == i + 1 {
        if mouse.x <= CAMERA_WIDTH {
          corners[i] := corners[i].(x := mouse.x);
        }
        corners[i] := corners[i].(y := mouse.y);
      }
    }
  }

  /** A fresh array holding the same points: numpy's copy(). */
  method CopyOf(a: array<Point>) returns (b: array<Point>)
    ensures fresh(b) && b[..] == a[..]
  {
    b := new Point[a.Length](i requires 0 <= i < a.Length reads a => a[i]);
  }

  /** A fresh array holding the given points. */
  method ArrayOf(s: seq<Point>) returns (b: array<Point>)
    ensures fresh(b) && b[..] == s
  {
    b := new Point[|s|](i requires 0 <= i < |s| => s[i]);
  }

  /**
   * corners is what detection leaves for a bright frame: empty when no
   * contour qualifies, otherwise the selected contour's approximation taken
   * from the downscaled size to the camera view.
   */
  ghost predicate SheetFound(candidates: seq<Candidate>, height: int, cameraHeight: int, corners: seq<Point>)
    requires height >= 1
  {
    && (corners == [] <==> forall j :: 0 <= j < |candidates| ==> !Qualifies(candidates[j], IMAGE_WIDTH * height))
    && (corners != [] ==>
          exists k :: Selected(candidates, IMAGE_WIDTH * height, k)
            && corners == ScalePoints(candidates[k].approx, IMAGE_WIDTH, height, CAMERA_WIDTH, cameraHeight))
  }

  /** get_sheet_corners on the downscaled frame, then rescale to the camera view, into a fresh array. */
  method DetectCorners(candidates: seq<Candidate>, height: int, cameraHeight: int) returns (detected: array<Point>)
    requires height >= 1 && cameraHeight >= 1
    ensures fresh(detected) && (detected.Length == 0 || detected.Length == 4)
    ensures SheetFound(candidates, height, cameraHeight, detected[..])
  {
    var approx, contour := GetSheetCorners(candidates, IMAGE_WIDTH * height);
    detected := ArrayOf(approx);
    if |approx| != 0 && |contour| != 0 {
      Rescale(detected, IMAGE_WIDTH, height, CAMERA_WIDTH, cameraHeight);
    }
  }

  /** An event that ends the main loop. */
  predicate Ends(e: Event)
  {
    e == Quit || e == KeyUp(Escape) || e == KeyUp(KeyQ)
  }
}
