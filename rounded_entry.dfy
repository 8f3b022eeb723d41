/** RoundedEntry.create_rounded_rectangle: the outline of the message field is a
    smoothed polygon through twelve points, handed to Tk as one flat list of 24
    coordinates. Two points sit on each side of the box, `radius` in from its
    corners, and the four corners themselves are points too; Tk's spline
    smoothing then rounds them off. */
module RoundedEntry {

  datatype Point = Point(x: int, y: int)

  /** The radius and box the RoundedEntry constructor uses for a canvas of the
      given size: from (1, 1) to (width - 1, height - 1), radius 22. */
  const EntryRadius: int := 22
  /** The message field of create_modern_input_area is a 207 by 46 canvas. */
  const InputWidth: int := 207
  const InputHeight: int := 46

  /** The coordinate list create_rounded_rectangle builds. */
  function RoundedRectangle(x1: int, y1: int, x2: int, y2: int, radius: int): (points: seq<int>)
    ensures |points| == 24
    ensures forall i :: 0 <= i < 12 ==>
      points[2 * i] == x1 || points[2 * i] == x2 || points[2 * i + 1] == y1 || points[2 * i + 1] == y2
  {
    [
      x1 + radius, y1,
      x2 - radius, y1,
      x2, y1,
      x2, y1 + radius,
      x2, y2 - radius,
      x2, y2,
      x2 - radius, y2,
      x1 + radius, y2,
      x1, y2,
      x1, y2 - radius,
      x1, y1 + radius,
      x1, y1
    ]
  }

  /** The points a flat coordinate list stands for, two numbers each. */
  function Vertices(coords: seq<int>): seq<Point>
    requires |coords| % 2 == 0
  {
    seq(|coords| / 2, i requires 0 <= i < |coords| / 2 => Point(coords[2 * i], coords[2 * i + 1]))
  }

  /** The index of the point after point i on the closed outline. */
  function Next(i: nat): nat
  {
    if i == 11 then 0 else i + 1
  }

  /** The twelve points of create_rounded_rectangle, read as points. */
  function OutlinePoints(x1: int, y1: int, x2: int, y2: int, radius: int): seq<Point>
  {
    [
      Point(x1 + radius, y1), Point(x2 - radius, y1), Point(x2, y1),
      Point(x2, y1 + radius), Point(x2, y2 - radius), Point(x2, y2),
      Point(x2 - radius, y2), Point(x1 + radius, y2), Point(x1, y2),
      Point(x1, y2 - radius), Point(x1, y1 + radius), Point(x1, y1)
    ]
  }

  lemma VerticesOfTwelve(c: seq<int>)
    requires |c| == 24
    ensures Vertices(c) == [
      Point(c[0], c[1]), Point(c[2], c[3]), Point(c[4], c[5]), Point(c[6], c[7]),
      Point(c[8], c[9]), Point(c[10], c[11]), Point(c[12], c[13]), Point(c[14], c[15]),
      Point(c[16], c[17]), Point(c[18], c[19]), Point(c[20], c[21]), Point(c[22], c[23])]
  {
  }

  lemma VerticesOfRoundedRectangle(x1: int, y1: int, x2: int, y2: int, radius: int)
    ensures Vertices(RoundedRectangle(x1, y1, x2, y2, radius)) == OutlinePoints(x1, y1, x2, y2, radius)
  {
    VerticesOfTwelve(RoundedRectangle(x1, y1, x2, y2, radius));
  }

  /** The outline of the RoundedEntry canvas of the given size. */
  function EntryOutline(width: int, height: int): seq<int>
  {
    RoundedRectangle(1, 1, width - 1, height - 1, EntryRadius)
  }

  predicate InBox(p: Point, x1: int, y1: int, x2: int, y2: int)
  {
    x1 <= p.x <= x2 && y1 <= p.y <= y2
  }

  /** The closed outline only runs horizontally or vertically between successive
      points, the last point joining the first, and goes round the box: the
      corners are points 2, 5, 8 and 11, clockwise from the top right. */
  lemma OutlineIsAxisParallel(x1: int, y1: int, x2: int, y2: int, radius: int)
    ensures var pts := Vertices(RoundedRectangle(x1, y1, x2, y2, radius));
      |pts| == 12 &&
      (forall i {:trigger Next(i)} :: 0 <= i < 12 ==>
        pts[i].x == pts[Next(i)].x || pts[i].y == pts[Next(i)].y) &&
      pts[2] == Point(x2, y1) && pts[5] == Point(x2, y2) &&
      pts[8] == Point(x1, y2) && pts[11] == Point(x1, y1)
  {
    VerticesOfRoundedRectangle(x1, y1, x2, y2, radius);
  }

  /** With a radius of at most half of either side, every point lies in the box,
      and they come in the order of a walk around it: along the top from left to
      right, down the right side, back along the bottom and up the left side. */
  lemma OutlineInBox(x1: int, y1: int, x2: int, y2: int, radius: int)
    requires 0 <= radius && 2 * radius <= x2 - x1 && 2 * radius <= y2 - y1
    ensures var pts := Vertices(RoundedRectangle(x1, y1, x2, y2, radius));
      (forall i :: 0 <= i < 12 ==> InBox(pts[i], x1, y1, x2, y2)) &&
      pts[0].x <= pts[1].x <= pts[2].x &&
      pts[2].y <= pts[3].y <= pts[4].y <= pts[5].y &&
      pts[5].x >= pts[6].x >= pts[7].x >= pts[8].x &&
      pts[8].y >= pts[9].y >= pts[10].y >= pts[11].y
  {
    VerticesOfRoundedRectangle(x1, y1, x2, y2, radius);
  }

  /** The shift of coordinate j of a flat list: dx for an x, dy for a y. */
  function Offset(j: int, dx: int, dy: int): int
  {
    if j % 2 == 0 then dx else dy
  }

  lemma RoundedRectangleTranslates(x1: int, y1: int, x2: int, y2: int, radius: int, dx: int, dy: int)
    ensures var c := RoundedRectangle(x1, y1, x2, y2, radius);
      var d := RoundedRectangle(x1 + dx, y1 + dy, x2 + dx, y2 + dy, radius);
      forall j :: 0 <= j < 24 ==> d[j] == c[j] + Offset(j, dx, dy)
  {
  }

  lemma VerticesShift(c: seq<int>, d: seq<int>, dx: int, dy: int)
    requires |c| == |d| && |c| % 2 == 0
    requires forall j :: 0 <= j < |c| ==> d[j] == c[j] + Offset(j, dx, dy)
    ensures |Vertices(c)| == |Vertices(d)|
    ensures forall i :: 0 <= i < |Vertices(c)| ==>
      Vertices(d)[i] == Point(Vertices(c)[i].x + dx, Vertices(c)[i].y + dy)
  {
    forall i | 0 <= i < |Vertices(c)|
      ensures Vertices(d)[i] == Point(Vertices(c)[i].x + dx, Vertices(c)[i].y + dy)
    {
      assert d[2 * i] == c[2 * i] + Offset(2 * i, dx, dy);
      assert d[2 * i + 1] == c[2 * i + 1] + Offset(2 * i + 1, dx, dy);
    }
  }

  /** Moving the box moves every point by the same amount. */
  lemma OutlineTranslates(x1: int, y1: int, x2: int, y2: int, radius: int, dx: int, dy: int)
    ensures var p := Vertices(RoundedRectangle(x1, y1, x2, y2, radius));
      var q := Vertices(RoundedRectangle(x1 + dx, y1 + dy, x2 + dx, y2 + dy, radius));
      |p| == |q| && forall i :: 0 <= i < |p| ==> q[i] == Point(p[i].x + dx, p[i].y + dy)
  {
    RoundedRectangleTranslates(x1, y1, x2, y2, radius, dx, dy);
    VerticesShift(RoundedRectangle(x1, y1, x2, y2, radius),
      RoundedRectangle(x1 + dx, y1 + dy, x2 + dx, y2 + dy, radius), dx, dy);
  }

  /** The message field's outline: the box is 205 by 44, so a radius of 22 is
      exactly half its height and the two points on each short side coincide
      at mid-height. */
  lemma InputOutline()
    ensures var pts := Vertices(EntryOutline(InputWidth, InputHeight));
      pts[3] == pts[4] == Point(206, 23) && pts[9] == pts[10] == Point(1, 23) &&
      (forall i :: 0 <= i < 12 ==> InBox(pts[i], 1, 1, 206, 45))
  {
    OutlineInBox(1, 1, 206, 45, EntryRadius);
  }
}
