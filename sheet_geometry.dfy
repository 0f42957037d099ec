/**
 * Corner geometry of the sheet scanner: canonical corner order, integer
 * rescaling between pixel scales, choice of the sheet among the detected
 * contours, and the corner pairing handed to the perspective warp.
 * Both versions of the scanner use exactly this code.
 */
module SheetGeometry {

  /** A pixel position; the detector and the display work on integer pixels. */
  datatype Point = Point(x: int, y: int)

  /** x + y: smallest at the top-left corner, largest at the bottom-right one. */
  function Sum(p: Point): int { p.x + p.y }

  /** y - x (a numpy diff along the coordinate axis): smallest at the top-right corner, largest at the bottom-left one. */
  function Diff(p: Point): int { p.y - p.x }

  /** The four keys x + y, in point order. */
  function Sums(ps: seq<Point>): seq<int>
    requires |ps| == 4
  {
    [Sum(ps[0]), Sum(ps[1]), Sum(ps[2]), Sum(ps[3])]
  }

  /** The four keys y - x, in point order. */
  function Diffs(ps: seq<Point>): seq<int>
    requires |ps| == 4
  {
    [Diff(ps[0]), Diff(ps[1]), Diff(ps[2]), Diff(ps[3])]
  }

  /** k is where keys first reaches its minimum. */
  ghost predicate FirstMinAt(keys: seq<int>, k: int)
  {
    && 0 <= k < |keys|
    && (forall j :: 0 <= j < |keys| ==> keys[k] <= keys[j])
    && (forall j :: 0 <= j < k ==> keys[j] > keys[k])
  }

  /** k is where keys first reaches its maximum. */
  ghost predicate FirstMaxAt(keys: seq<int>, k: int)
  {
    && 0 <= k < |keys|
    && (forall j :: 0 <= j < |keys| ==> keys[j] <= keys[k])
    && (forall j :: 0 <= j < k ==> keys[j] < keys[k])
  }

  /** numpy's argmin: the index of the first occurrence of the minimum. */
  function ArgMin(keys: seq<int>): (k: nat)
    requires |keys| > 0
    ensures FirstMinAt(keys, k)
    decreases |keys|
  {
    if |keys| == 1 then 0
    else
      var rest := 1 + ArgMin(keys[1..]);
      if keys[0] <= keys[rest] then 0 else rest
  }

  /** numpy's argmax: the index of the first occurrence of the maximum. */
  function ArgMax(keys: seq<int>): (k: nat)
    requires |keys| > 0
    ensures FirstMaxAt(keys, k)
    decreases |keys|
  {
    if |keys| == 1 then 0
    else
      var rest := 1 + ArgMax(keys[1..]);
      if keys[0] >= keys[rest] then 0 else rest
  }

  /**
   * reorder: slot 0 (top-left) takes the first point of least x+y, slot 1
   * (top-right) the first of least y-x, slot 2 (bottom-left) the first of
   * greatest y-x and slot 3 (bottom-right) the first of greatest x+y.
   */
  function Reorder(ps: seq<Point>): (r: seq<Point>)
    requires |ps| == 4
    ensures |r| == 4
    ensures forall i :: 0 <= i < 4 ==> r[i] in ps
  {
    var sums, diffs := Sums(ps), Diffs(ps);
    [ps[ArgMin(sums)], ps[ArgMin(diffs)], ps[ArgMax(diffs)], ps[ArgMax(sums)]]
  }

  /** The four slots of reorder, each characterised by the key it extremises. */
  lemma ReorderSlots(ps: seq<Point>)
    requires |ps| == 4
    ensures exists k :: FirstMinAt(Sums(ps), k) && Reorder(ps)[0] == ps[k]
    ensures exists k :: FirstMinAt(Diffs(ps), k) && Reorder(ps)[1] == ps[k]
    ensures exists k :: FirstMaxAt(Diffs(ps), k) && Reorder(ps)[2] == ps[k]
    ensures exists k :: FirstMaxAt(Sums(ps), k) && Reorder(ps)[3] == ps[k]
  {
    var sums, diffs := Sums(ps), Diffs(ps);
    assert FirstMinAt(sums, ArgMin(sums));
    assert FirstMinAt(diffs, ArgMin(diffs));
    assert FirstMaxAt(diffs, ArgMax(diffs));
    assert FirstMaxAt(sums, ArgMax(sums));
  }

  /** The first minimum and the first maximum are unique. */
  lemma FirstMinUnique(keys: seq<int>, a: int, b: int)
    requires FirstMinAt(keys, a) && FirstMinAt(keys, b)
    ensures a == b
  {
    assert keys[a] == keys[b];
  }

  lemma FirstMaxUnique(keys: seq<int>, a: int, b: int)
    requires FirstMaxAt(keys, a) && FirstMaxAt(keys, b)
    ensures a == b
  {
    assert keys[a] == keys[b];
  }

  predicate Distinct(keys: seq<int>)
  {
    forall i, j :: 0 <= i < j < |keys| ==> keys[i] != keys[j]
  }

  /** With pairwise different keys, two picks that carry the same key are the same point. */
  lemma SameKeySamePoint(keys: seq<int>, idx: seq<int>, a: int, b: int)
    requires Distinct(keys) && 0 <= a < |idx| && 0 <= b < |idx|
    requires 0 <= idx[a] < |keys| && 0 <= idx[b] < |keys|
    requires keys[idx[a]] == keys[idx[b]]
    ensures idx[a] == idx[b]
  {
    if idx[a] < idx[b] {
    } else if idx[b] < idx[a] {
    }
  }

  /**
   * Points q drawn from ps (q[i] == ps[idx[i]]) whose slots already hold ps's
   * extreme points are left in place by reorder, provided ps's keys are distinct.
   */
  lemma ReorderedStaysPut(ps: seq<Point>, q: seq<Point>, idx: seq<int>)
    requires |ps| == 4 && |q| == 4 && |idx| == 4
    requires Distinct(Sums(ps)) && Distinct(Diffs(ps))
    requires forall i :: 0 <= i < 4 ==> 0 <= idx[i] < 4 && q[i] == ps[idx[i]]
    requires FirstMinAt(Sums(ps), idx[0]) && FirstMinAt(Diffs(ps), idx[1])
    requires FirstMaxAt(Diffs(ps), idx[2]) && FirstMaxAt(Sums(ps), idx[3])
    ensures Reorder(q) == q
  {
    SlotsKept(ps, q, idx);
    SameFour(Reorder(q), q);
  }

  /** Under ReorderedStaysPut's conditions, each extreme of q's keys is found at q's own slot. */
  lemma SlotsKept(ps: seq<Point>, q: seq<Point>, idx: seq<int>)
    requires |ps| == 4 && |q| == 4 && |idx| == 4
    requires Distinct(Sums(ps)) && Distinct(Diffs(ps))
    requires forall i :: 0 <= i < 4 ==> 0 <= idx[i] < 4 && q[i] == ps[idx[i]]
    requires FirstMinAt(Sums(ps), idx[0]) && FirstMinAt(Diffs(ps), idx[1])
    requires FirstMaxAt(Diffs(ps), idx[2]) && FirstMaxAt(Sums(ps), idx[3])
    ensures q[ArgMin(Sums(q))] == q[0] && q[ArgMin(Diffs(q))] == q[1]
    ensures q[ArgMax(Diffs(q))] == q[2] && q[ArgMax(Sums(q))] == q[3]
  {
    var sums, diffs := Sums(ps), Diffs(ps);
    var qs, qd := Sums(q), Diffs(q);
    assert forall i :: 0 <= i < 4 ==> qs[i] == sums[idx[i]] && qd[i] == diffs[idx[i]];
    MinSlotKept(sums, qs, idx, 0);
    MinSlotKept(diffs, qd, idx, 1);
    MaxSlotKept(diffs, qd, idx, 2);
    MaxSlotKept(sums, qs, idx, 3);
  }

  /** Two four-point sequences that agree slot by slot are equal. */
  lemma SameFour(r: seq<Point>, q: seq<Point>)
    requires |r| == 4 && |q| == 4
    requires r[0] == q[0] && r[1] == q[1] && r[2] == q[2] && r[3] == q[3]
    ensures r == q
  {
    assert r == [r[0], r[1], r[2], r[3]];
    assert q == [q[0], q[1], q[2], q[3]];
  }

  /**
   * Keys qk drawn from distinct keys (qk[i] == keys[idx[i]]): when slot
   * already holds the minimum of keys, the first minimum of qk is drawn
   * from the same position.
   */
  lemma MinSlotKept(keys: seq<int>, qk: seq<int>, idx: seq<int>, slot: int)
    requires |keys| == 4 && |qk| == 4 && |idx| == 4 && 0 <= slot < 4 && Distinct(keys)
    requires forall i :: 0 <= i < 4 ==> 0 <= idx[i] < 4 && qk[i] == keys[idx[i]]
    requires FirstMinAt(keys, idx[slot])
    ensures idx[ArgMin(qk)] == idx[slot]
  {
    var c := ArgMin(qk);
    assert qk[c] <= qk[slot];
    SameKeySamePoint(keys, idx, c, slot);
  }

  /** As MinSlotKept, for the maximum. */
  lemma MaxSlotKept(keys: seq<int>, qk: seq<int>, idx: seq<int>, slot: int)
    requires |keys| == 4 && |qk| == 4 && |idx| == 4 && 0 <= slot < 4 && Distinct(keys)
    requires forall i :: 0 <= i < 4 ==> 0 <= idx[i] < 4 && qk[i] == keys[idx[i]]
    requires FirstMaxAt(keys, idx[slot])
    ensures idx[ArgMax(qk)] == idx[slot]
  {
    var c := ArgMax(qk);
    assert qk[slot] <= qk[c];
    SameKeySamePoint(keys, idx, c, slot);
  }

  /**
   * When the four sums are pairwise different and the four differences are
   * pairwise different, reordering an already reordered set changes nothing.
   */
  lemma {:induction false} ReorderIdempotent(ps: seq<Point>)
    requires |ps| == 4
    requires Distinct(Sums(ps)) && Distinct(Diffs(ps))
    ensures Reorder(Reorder(ps)) == Reorder(ps)
  {
    var sums, diffs := Sums(ps), Diffs(ps);
    var idx := [ArgMin(sums), ArgMin(diffs), ArgMax(diffs), ArgMax(sums)];
    ReorderedStaysPut(ps, Reorder(ps), idx);
  }

  /**
   * A sheet turned by 45 degrees (a diamond with centre (cx, cy) and
   * half-diagonal d) ties both the sums and the differences: the top vertex
   * fills slots 0 and 1 and the left vertex is lost, so the rule is not a
   * permutation on such input.
   */
  lemma DiamondLosesAVertex(cx: int, cy: int, d: int)
    requires d > 0
    ensures Reorder([Point(cx, cy - d), Point(cx + d, cy), Point(cx, cy + d), Point(cx - d, cy)])
         == [Point(cx, cy - d), Point(cx, cy - d), Point(cx, cy + d), Point(cx + d, cy)]
  {
    var ps := [Point(cx, cy - d), Point(cx + d, cy), Point(cx, cy + d), Point(cx - d, cy)];
    var sums, diffs := Sums(ps), Diffs(ps);
    assert sums == [cx + cy - d, cx + cy + d, cx + cy + d, cx + cy - d];
    assert diffs == [cy - cx - d, cy - cx - d, cy - cx + d, cy - cx + d];
    FirstMinUnique(sums, ArgMin(sums), 0);
    FirstMaxUnique(sums, ArgMax(sums), 1);
    FirstMinUnique(diffs, ArgMin(diffs), 0);
    FirstMaxUnique(diffs, ArgMax(diffs), 2);
  }

  /**
   * Reordering the diamond's result once more moves the right vertex out of
   * slot 3: without distinct keys the rule is not idempotent.
   */
  lemma DiamondNotIdempotent(cx: int, cy: int, d: int)
    requires d > 0
    ensures Reorder([Point(cx, cy - d), Point(cx, cy - d), Point(cx, cy + d), Point(cx + d, cy)])
         == [Point(cx, cy - d), Point(cx, cy - d), Point(cx, cy + d), Point(cx, cy + d)]
  {
    var qs := [Point(cx, cy - d), Point(cx, cy - d), Point(cx, cy + d), Point(cx + d, cy)];
    var sums, diffs := Sums(qs), Diffs(qs);
    assert sums == [cx + cy - d, cx + cy - d, cx + cy + d, cx + cy + d];
    assert diffs == [cy - cx - d, cy - cx - d, cy - cx + d, cy - cx - d];
    FirstMinUnique(sums, ArgMin(sums), 0);
    FirstMaxUnique(sums, ArgMax(sums), 2);
    FirstMinUnique(diffs, ArgMin(diffs), 0);
    FirstMaxUnique(diffs, ArgMax(diffs), 2);
  }

  // ---------------------------------------------------------------------
  // Rescaling between pixel scales

  /** One coordinate of rescale: v * to // from, with Python's floor division. */
  function ScaleCoord(v: int, from: int, to: int): (r: int)
    requires from > 0
    ensures r * from <= v * to < r * from + from
  {
    v * to / from
  }

  function ScalePoint(p: Point, w: int, h: int, fw: int, fh: int): Point
    requires w > 0 && h > 0
  {
    Point(ScaleCoord(p.x, w, fw), ScaleCoord(p.y, h, fh))
  }

  /** Every point of ps rescaled from w x h to fw x fh. */
  function ScalePoints(ps: seq<Point>, w: int, h: int, fw: int, fh: int): (r: seq<Point>)
    requires w > 0 && h > 0
    ensures |r| == |ps|
  {
    seq(|ps|, i requires 0 <= i < |ps| => ScalePoint(ps[i], w, h, fw, fh))
  }

  /**
   * rescale: overwrites the four points of the array in place, each x
   * becoming x * fw // w and each y becoming y * fh // h.
   */
  method Rescale(pts: array<Point>, w: int, h: int, fw: int, fh: int)
    requires pts.Length == 4 && w > 0 && h > 0
    modifies pts
    ensures pts[..] == ScalePoints(old(pts[..]), w, h, fw, fh)
  {
    for pointNum := 0 to 4
      invariant forall i :: 0 <= i < pointNum ==> pts[i] == ScalePoint(old(pts[i]), w, h, fw, fh)
      invariant forall i :: pointNum <= i < 4 ==> pts[i] == old(pts[i])
    {
      pts[pointNum] := Point(pts[pointNum].x * fw / w, pts[pointNum].y * fh / h);
    }
  }

  /** Multiplying by a positive factor preserves order in both directions. */
  lemma MulLeCancel(x: int, y: int, d: int)
    requires d > 0 && x * d <= y * d
    ensures x <= y
  {
  }

  /** Rescaling to the same dimensions leaves every integer coordinate where it was. */
  lemma RescaleSameScale(v: int, d: int)
    requires d > 0
    ensures ScaleCoord(v, d, d) == v
  {
    var r := ScaleCoord(v, d, d);
    MulLeCancel(r, v, d);
    assert (r + 1) * d == r * d + d;
    MulLeCancel(v, r, d);
  }

  /** A larger coordinate never rescales to a smaller one. */
  lemma ScaleMonotone(v: int, u: int, from: int, to: int)
    requires from > 0 && to >= 0 && v <= u
    ensures ScaleCoord(v, from, to) <= ScaleCoord(u, from, to)
  {
    var a, b := ScaleCoord(v, from, to), ScaleCoord(u, from, to);
    assert v * to <= u * to;
    assert a * from < (b + 1) * from;
    MulLeCancel(a, b, from);
  }

  /**
   * Rescaling a nonnegative coordinate from scale a to scale b and back
   * never yields more than the original: floor division only loses.
   */
  lemma {:induction false} RescaleRoundTripNeverGrows(v: int, a: int, b: int)
    requires v >= 0 && a > 0 && b > 0
    ensures ScaleCoord(ScaleCoord(v, a, b), b, a) <= v
  {
    var u := ScaleCoord(v, a, b);
    var back := ScaleCoord(u, b, a);
    assert back * b <= u * a;
    assert u * a <= v * b;
    MulLeCancel(back, v, b);
  }

  /** Going up by a whole factor and back down again is exact. */
  lemma {:induction false} RescaleUpAndBackExact(v: int, a: int, k: int)
    requires a > 0 && k > 0
    ensures ScaleCoord(v, a, a * k) == v * k
    ensures ScaleCoord(ScaleCoord(v, a, a * k), a * k, a) == v
  {
    var u := ScaleCoord(v, a, a * k);
    assert v * (a * k) == (v * k) * a;
    MulLeCancel(u, v * k, a);
    assert (u + 1) * a == u * a + a;
    MulLeCancel(v * k, u, a);
    assert (v * k) * a == v * (a * k);
    RescaleSameScale(v, a * k);
  }

  /**
   * Floor division does not compose: 1 taken from scale 2 to scale 1 and on
   * to scale 2 ends at 0, while the single step from 2 to 2 keeps it at 1.
   */
  lemma ChainedRescaleLosesPrecision()
    ensures ScaleCoord(ScaleCoord(1, 2, 1), 1, 2) == 0
    ensures ScaleCoord(1, 2, 2) == 1
  {
  }

  // ---------------------------------------------------------------------
  // Choosing the sheet among the detected contours

  /** A contour is never empty. */
  type Contour = c: seq<Point> | |c| > 0 witness [Point(0, 0)]

  /**
   * What the contour finder reports for one external contour: its enclosed
   * area, its polygon approximation (at 10% of its perimeter) and the
   * contour itself.
   */
  datatype Candidate = Candidate(area: real, approx: seq<Point>, contour: Contour)

  /**
   * A candidate that can become the sheet: area above total // 8, exactly
   * four vertices, and above the running maximum's start value 0.
   */
  predicate Qualifies(c: Candidate, totalArea: int)
  {
    c.area > (totalArea / 8) as real && c.area > 0.0 && |c.approx| == 4
  }

  /**
   * Candidate k of the first n is the one kept: it qualifies, no qualifying
   * candidate has a larger area, and every earlier qualifying one is
   * strictly smaller (the first of equal areas wins).
   */
  ghost predicate SelectedAmong(cs: seq<Candidate>, totalArea: int, k: int, n: int)
    requires 0 <= n <= |cs|
  {
    && 0 <= k < n
    && Qualifies(cs[k], totalArea)
    && (forall j :: 0 <= j < n && Qualifies(cs[j], totalArea) ==> cs[j].area <= cs[k].area)
    && (forall j :: 0 <= j < k && Qualifies(cs[j], totalArea) ==> cs[j].area < cs[k].area)
  }

  ghost predicate Selected(cs: seq<Candidate>, totalArea: int, k: int)
  {
    SelectedAmong(cs, totalArea, k, |cs|)
  }

  /**
   * get_sheet_corners: the approximation and the contour of the largest
   * qualifying candidate, or two empty results when none qualifies.
   */
  method GetSheetCorners(contours: seq<Candidate>, totalArea: int) returns (sheetCorners: seq<Point>, finalContour: seq<Point>)
    ensures sheetCorners == [] <==> finalContour == []
    ensures sheetCorners == [] <==> forall j :: 0 <= j < |contours| ==> !Qualifies(contours[j], totalArea)
    ensures sheetCorners != [] ==>
      exists k :: Selected(contours, totalArea, k)
                  && sheetCorners == contours[k].approx && finalContour == contours[k].contour
  {
    sheetCorners := [];
    var maxArea := 0.0;
    finalContour := [];
    ghost var best := -1;
    for i := 0 to |contours|
      invariant -1 <= best < i
      invariant best == -1 ==> sheetCorners == [] && finalContour == [] && maxArea == 0.0
      invariant best == -1 ==> forall j :: 0 <= j < i ==> !Qualifies(contours[j], totalArea)
      invariant best >= 0 ==> SelectedAmong(contours, totalArea, best, i)
      invariant best >= 0 ==> sheetCorners == contours[best].approx && finalContour == contours[best].contour
      invariant best >= 0 ==> maxArea == contours[best].area
    {
      var contour := contours[i];
      var area := contour.area;
      if area > (totalArea / 8) as real {
        var approximation := contour.approx;
        var numSides := |approximation|;
        if area > maxArea && numSides == 4 {
          sheetCorners := approximation;
          maxArea := area;
          finalContour := contour.contour;
          best := i;
        }
      }
    }
  }

  /** The detector is deterministic: at most one candidate is the selected one. */
  lemma SelectionUnique(cs: seq<Candidate>, totalArea: int, k1: int, k2: int)
    requires Selected(cs, totalArea, k1) && Selected(cs, totalArea, k2)
    ensures k1 == k2
  {
  }

  /**
   * A sheet quadrilateral of half the frame beats a small five-sided noise
   * contour of a twentieth of the frame, whatever their order.
   */
  lemma SheetBeatsNoise(sheet: Candidate, noise: Candidate)
    requires sheet.area == 20000.0 && |sheet.approx| == 4
    requires noise.area == 2000.0 && |noise.approx| == 5
    ensures Selected([noise, sheet], 40000, 1)
    ensures Selected([sheet, noise], 40000, 0)
  {
  }

  // ---------------------------------------------------------------------
  // The perspective warp's corner pairing

  /** Where warp sends the corners: (0,0), (w,0), (0,h), (w,h). */
  function Targets(w: int, h: int): seq<Point>
  {
    [Point(0, 0), Point(w, 0), Point(0, h), Point(w, h)]
  }

  lemma RectangleKeys(p: Point, w: int, h: int)
    requires w > 0 && h > 0 && p in Targets(w, h)
    ensures Sum(p) <= 0 ==> p == Point(0, 0)
    ensures Diff(p) <= -w ==> p == Point(w, 0)
    ensures Diff(p) >= h ==> p == Point(0, h)
    ensures Sum(p) >= w + h ==> p == Point(w, h)
  {
  }
  lemma TopLeftOfRectangle(corners: seq<Point>, w: int, h: int, k: int)
    requires w > 0 && h > 0 && |corners| == 4
    requires forall i :: 0 <= i < 4 ==> corners[i] in Targets(w, h)
    requires Targets(w, h)[0] in corners
    requires FirstMinAt(Sums(corners), k)
    ensures corners[k] == Point(0, 0)
  {
    var j :| 0 <= j < 4 && corners[j] == Targets(w, h)[0];
    assert Sums(corners)[k] <= Sums(corners)[j];
    RectangleKeys(corners[k], w, h);
  }
  lemma TopRightOfRectangle(corners: seq<Point>, w: int, h: int, k: int)
    requires w > 0 && h > 0 && |corners| == 4
    requires forall i :: 0 <= i < 4 ==> corners[i] in Targets(w, h)
    requires Targets(w, h)[1] in corners
    requires FirstMinAt(Diffs(corners), k)
    ensures corners[k] == Point(w, 0)
  {
    var j :| 0 <= j < 4 && corners[j] == Targets(w, h)[1];
    assert Diffs(corners)[k] <= Diffs(corners)[j];
    RectangleKeys(corners[k], w, h);
  }
  lemma BottomLeftOfRectangle(corners: seq<Point>, w: int, h: int, k: int)
    requires w > 0 && h > 0 && |corners| == 4
    requires forall i :: 0 <= i < 4 ==> corners[i] in Targets(w, h)
    requires Targets(w, h)[2] in corners
    requires FirstMaxAt(Diffs(corners), k)
    ensures corners[k] == Point(0, h)
  {
    var j :| 0 <= j < 4 && corners[j] == Targets(w, h)[2];
    assert Diffs(corners)[j] <= Diffs(corners)[k];
    RectangleKeys(corners[k], w, h);
  }
  lemma BottomRightOfRectangle(corners: seq<Point>, w: int, h: int, k: int)
    requires w > 0 && h > 0 && |corners| == 4
    requires forall i :: 0 <= i < 4 ==> corners[i] in Targets(w, h)
    requires Targets(w, h)[3] in corners
    requires FirstMaxAt(Sums(corners), k)
    ensures corners[k] == Point(w, h)
  {
    var j :| 0 <= j < 4 && corners[j] == Targets(w, h)[3];
    assert Sums(corners)[j] <= Sums(corners)[k];
    RectangleKeys(corners[k], w, h);
  }
  lemma {:induction false} ReorderOfRectangle(corners: seq<Point>, w: int, h: int)
    requires w > 0 && h > 0 && |corners| == 4
    requires forall i :: 0 <= i < 4 ==> corners[i] in Targets(w, h)
    requires forall i :: 0 <= i < 4 ==> Targets(w, h)[i] in corners
    ensures Reorder(corners) == Targets(w, h)
  {
    var sums, diffs := Sums(corners), Diffs(corners);
    TopLeftOfRectangle(corners, w, h, ArgMin(sums));
    TopRightOfRectangle(corners, w, h, ArgMin(diffs));
    BottomLeftOfRectangle(corners, w, h, ArgMax(diffs));
    BottomRightOfRectangle(corners, w, h, ArgMax(sums));
  }
  /**
   * warp: the reordered corners paired slot by slot with the target
   * rectangle (top-left, top-right, bottom-left, bottom-right).
   */
  function WarpCorners(corners: seq<Point>, w: int, h: int): (pairs: seq<(Point, Point)>)
    requires |corners| == 4
    ensures |pairs| == 4
    ensures forall i :: 0 <= i < 4 ==> pairs[i].0 in corners && pairs[i].1 == Targets(w, h)[i]
    ensures forall i :: 0 <= i < 4 ==> pairs[i].0 == Reorder(corners)[i]
  {
    var src := Reorder(corners);
    [(src[0], Point(0, 0)), (src[1], Point(w, 0)), (src[2], Point(0, h)), (src[3], Point(w, h))]
  }

  /**
   * Warping a w x h rectangle's own corners, listed in any order, onto a
   * w x h output pairs every corner with itself: the warp is the identity.
   */
  lemma WarpOfOwnRectangleIsIdentity(corners: seq<Point>, w: int, h: int)
    requires w > 0 && h > 0 && |corners| == 4
    requires forall i :: 0 <= i < 4 ==> corners[i] in Targets(w, h)
    requires forall i :: 0 <= i < 4 ==> Targets(w, h)[i] in corners
    ensures forall i :: 0 <= i < 4 ==> WarpCorners(corners, w, h)[i] == (Targets(w, h)[i], Targets(w, h)[i])
  {
    ReorderOfRectangle(corners, w, h);
  }

  // ---------------------------------------------------------------------
  // Display orientation

  /** The angle create_pygame_image rotates by before flipping: 90 * (rotation % 4 - 1). */
  function DisplayAngle(rotation: int): (a: int)
    ensures a == -90 || a == 0 || a == 90 || a == 180
  {
    90 * (rotation % 4 - 1)
  }

  /** Four more rotation clicks give the same orientation. */
  lemma AnglePeriodFour(rotation: int)
    ensures DisplayAngle(rotation + 4) == DisplayAngle(rotation)
  {
  }
}
