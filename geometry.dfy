/**
 * Geometry helpers of the annotation editor: the shoelace polygon area,
 * the even-odd ray-casting point-in-polygon test and squared distances.
 * All coordinates are image-space pixels, which the editor keeps as integers.
 */
module Geometry {

  /** An image-space pixel coordinate. */
  datatype Pt = Pt(x: int, y: int)

  function Abs(n: int): (r: nat)
    ensures r == n || r == -n
  {
    if n < 0 then -n else n
  }

  /** The z-component of the cross product of p and q, one shoelace term. */
  function Cross(p: Pt, q: Pt): int
  {
    p.x * q.y - q.x * p.y
  }

  lemma CrossAntisymmetric(p: Pt, q: Pt)
    ensures Cross(p, q) == -Cross(q, p)
  {
  }

  /** Sum of Cross over the consecutive pairs of the open chain s[0], ..., s[|s| - 1]. */
  function Chain(s: seq<Pt>): int
    decreases |s|
  {
    if |s| < 2 then 0 else Chain(s[..|s| - 1]) + Cross(s[|s| - 2], s[|s| - 1])
  }

  /** Twice the signed area of the closed ring s: the chain plus the closing edge. */
  function Shoelace(s: seq<Pt>): int
  {
    if |s| == 0 then 0 else Chain(s) + Cross(s[|s| - 1], s[0])
  }

  /** The unsigned area of the ring s, in square pixels. */
  function Area(s: seq<Pt>): (r: real)
    ensures r >= 0.0
    ensures r * 2.0 == Abs(Shoelace(s)) as real
  {
    Abs(Shoelace(s)) as real / 2.0
  }

  /** calculatePolygonArea: one pass accumulating x_i*y_j - x_j*y_i with j = (i + 1) mod n. */
  method CalculatePolygonArea(points: seq<Pt>) returns (area: real)
    ensures area == Area(points)
  {
    var acc := 0;
    var n := |points|;
    for i := 0 to n
      invariant acc == if i < n then Chain(points[..i + 1]) else Shoelace(points)
    {
      var j := (i + 1) % n;
      ghost var before := acc;
      acc := acc + points[i].x * points[j].y;
      acc := acc - points[j].x * points[i].y;
      assert acc == before + Cross(points[i], points[j]);
      ShoelaceStep(points, i);
    }
    area := Abs(acc) as real / 2.0;
  }

  /** One iteration of calculatePolygonArea: the edge from vertex i to vertex (i + 1) mod n extends the sum. */
  lemma ShoelaceStep(points: seq<Pt>, i: nat)
    requires i < |points|
    ensures (if i + 1 < |points| then Chain(points[..i + 2]) else Shoelace(points))
      == Chain(points[..i + 1]) + Cross(points[i], points[(i + 1) % |points|])
  {
    var n := |points|;
    if i + 1 < n {
      assert (i + 1) % n == i + 1;
      ChainSnoc(points[..i + 1], points[i + 1]);
      assert points[..i + 1] + [points[i + 1]] == points[..i + 2];
    } else {
      assert (i + 1) % n == 0;
      assert points[..i + 1] == points;
    }
  }

  /** Chain unfolded from the front instead of the back. */
  lemma {:induction false} ChainCons(s: seq<Pt>)
    requires |s| >= 2
    ensures Chain(s) == Cross(s[0], s[1]) + Chain(s[1..])
  {
    if |s| > 2 {
      ChainCons(s[..|s| - 1]);
      assert s[..|s| - 1][1..] == s[1..][..|s| - 2];
    }
  }

  /** Chain extended by one vertex at the back. */
  lemma ChainSnoc(s: seq<Pt>, p: Pt)
    requires |s| >= 1
    ensures Chain(s + [p]) == Chain(s) + Cross(s[|s| - 1], p)
  {
    assert (s + [p])[..|s|] == s;
  }

  /** A ring with fewer than three vertices encloses no area. */
  lemma AreaOfFewerThanThree(s: seq<Pt>)
    requires |s| < 3
    ensures Area(s) == 0.0
  {
    if |s| == 2 {
      assert Chain(s[..1]) == 0;
      CrossAntisymmetric(s[0], s[1]);
    }
  }

  /** The ring s rotated left by one vertex. */
  function RotateOne(s: seq<Pt>): (r: seq<Pt>)
    requires |s| >= 1
    ensures |r| == |s| && r[|r| - 1] == s[0]
    ensures forall i :: 0 <= i < |s| - 1 ==> r[i] == s[i + 1]
  {
    s[1..] + [s[0]]
  }

  /** The shoelace sum is the same from whichever vertex the ring starts. */
  lemma {:induction false} ShoelaceRotateOne(s: seq<Pt>)
    requires |s| >= 1
    ensures Shoelace(RotateOne(s)) == Shoelace(s)
  {
    var r := RotateOne(s);
    var n := |s|;
    if n >= 2 {
      assert r == s[1..] + [s[0]];
      assert Chain(r) == Chain(s[1..]) + Cross(s[n - 1], s[0]) by {
        ChainSnoc(s[1..], s[0]);
      }
      assert Chain(s) == Cross(s[0], s[1]) + Chain(s[1..]) by {
        ChainCons(s);
      }
      assert Shoelace(r) == Chain(r) + Cross(s[0], s[1]) by {
        assert r[n - 1] == s[0] && r[0] == s[1];
      }
      assert Shoelace(s) == Chain(s) + Cross(s[n - 1], s[0]);
    } else {
      assert r == s;
    }
  }

  /** The ring s rotated left by k vertices. */
  function Rotate(s: seq<Pt>, k: nat): (r: seq<Pt>)
    requires k <= |s|
    ensures |r| == |s|
    ensures forall i :: 0 <= i < |s| - k ==> r[i] == s[i + k]
    ensures forall i :: |s| - k <= i < |s| ==> r[i] == s[i + k - |s|]
  {
    s[k..] + s[..k]
  }

  /** Rotating the ring leaves its area unchanged. */
  lemma {:induction false} AreaRotate(s: seq<Pt>, k: nat)
    requires k <= |s|
    ensures Area(Rotate(s, k)) == Area(s)
  {
    if k > 0 {
      AreaRotate(s, k - 1);
      var r := Rotate(s, k - 1);
      ShoelaceRotateOne(r);
      assert RotateOne(r) == Rotate(s, k) by {
        assert r[1..] == s[k..] + s[..k - 1];
        assert s[..k] == s[..k - 1] + [s[k - 1]];
      }
    } else {
      assert Rotate(s, 0) == s;
    }
  }

  /** The ring s in reverse vertex order. */
  function Reverse(s: seq<Pt>): (r: seq<Pt>)
    ensures |r| == |s|
    ensures forall i :: 0 <= i < |s| ==> r[i] == s[|s| - 1 - i]
  {
    if s == [] then [] else Reverse(s[1..]) + [s[0]]
  }

  lemma {:induction false} ChainReverse(s: seq<Pt>)
    ensures Chain(Reverse(s)) == -Chain(s)
  {
    if |s| >= 2 {
      ChainReverse(s[1..]);
      var t := Reverse(s[1..]);
      ChainSnoc(t, s[0]);
      ChainCons(s);
    } else if |s| == 1 {
      assert Reverse(s) == s;
    }
  }

  /** Reversing the ring flips the sign of the shoelace sum, so the area is unchanged. */
  lemma ShoelaceReverse(s: seq<Pt>)
    ensures Shoelace(Reverse(s)) == -Shoelace(s)
    ensures Area(Reverse(s)) == Area(s)
  {
    ChainReverse(s);
  }

  /** The point p moved by the vector v. */
  function Shift(p: Pt, v: Pt): Pt
  {
    Pt(p.x + v.x, p.y + v.y)
  }

  /** Every vertex of s moved by the vector v. */
  function Translate(s: seq<Pt>, v: Pt): (r: seq<Pt>)
    ensures |r| == |s|
    ensures forall i :: 0 <= i < |s| ==> r[i] == Shift(s[i], v)
  {
    if s == [] then [] else [Shift(s[0], v)] + Translate(s[1..], v)
  }

  lemma CrossShift(p: Pt, q: Pt, v: Pt)
    ensures Cross(Shift(p, v), Shift(q, v)) == Cross(p, q) + Cross(p, v) - Cross(q, v)
  {
  }

  lemma {:induction false} ChainTranslate(s: seq<Pt>, v: Pt)
    requires |s| >= 1
    ensures Chain(Translate(s, v)) == Chain(s) + Cross(s[0], v) - Cross(s[|s| - 1], v)
  {
    if |s| >= 2 {
      var t := Translate(s, v);
      ChainTranslate(s[..|s| - 1], v);
      assert t[..|t| - 1] == Translate(s[..|s| - 1], v);
      CrossShift(s[|s| - 2], s[|s| - 1], v);
    }
  }

  /** Moving the whole ring leaves its area unchanged. */
  lemma AreaTranslate(s: seq<Pt>, v: Pt)
    ensures Shoelace(Translate(s, v)) == Shoelace(s)
    ensures Area(Translate(s, v)) == Area(s)
  {
    if |s| >= 1 {
      ChainTranslate(s, v);
      CrossShift(s[|s| - 1], s[0], v);
    }
  }

  /** The point a + t*d. */
  function OnLine(a: Pt, d: Pt, t: int): Pt
  {
    Pt(a.x + t * d.x, a.y + t * d.y)
  }

  lemma CrossOnLine(a: Pt, d: Pt, t: int, u: int)
    ensures Cross(OnLine(a, d, t), OnLine(a, d, u)) == (u - t) * Cross(a, d)
  {
    calc {
      Cross(OnLine(a, d, t), OnLine(a, d, u));
      (a.x + t * d.x) * (a.y + u * d.y) - (a.x + u * d.x) * (a.y + t * d.y);
      a.x * u * d.y + t * d.x * a.y - a.x * t * d.y - u * d.x * a.y;
      (u - t) * (a.x * d.y - d.x * a.y);
    }
  }

  lemma {:induction false} ChainCollinear(s: seq<Pt>, a: Pt, d: Pt, ts: seq<int>)
    requires |s| >= 1 && |ts| == |s|
    requires forall i :: 0 <= i < |s| ==> s[i] == OnLine(a, d, ts[i])
    ensures Chain(s) == (ts[|s| - 1] - ts[0]) * Cross(a, d)
  {
    if |s| >= 2 {
      var n := |s|;
      ChainCollinear(s[..n - 1], a, d, ts[..n - 1]);
      CrossOnLine(a, d, ts[n - 2], ts[n - 1]);
    }
  }

  /** A ring whose vertices all lie on one line a + t*d has area 0. */
  lemma AreaCollinear(s: seq<Pt>, a: Pt, d: Pt, ts: seq<int>)
    requires |ts| == |s|
    requires forall i :: 0 <= i < |s| ==> s[i] == OnLine(a, d, ts[i])
    ensures Area(s) == 0.0
  {
    var n := |s|;
    if n >= 1 {
      ChainCollinear(s, a, d, ts);
      assert s[n - 1] == OnLine(a, d, ts[n - 1]) && s[0] == OnLine(a, d, ts[0]);
      CrossOnLine(a, d, ts[n - 1], ts[0]);
      var k := Cross(a, d);
      assert Shoelace(s) == (ts[n - 1] - ts[0]) * k + (ts[0] - ts[n - 1]) * k;
    }
  }

  /** The shoelace sum of a quadrilateral, written out. */
  lemma ShoelaceOfFour(a: Pt, b: Pt, c: Pt, d: Pt)
    ensures Shoelace([a, b, c, d]) == Cross(a, b) + Cross(b, c) + Cross(c, d) + Cross(d, a)
  {
    var ring := [a, b, c, d];
    assert ring[..2][..1] == ring[..1];
    assert Chain(ring[..2]) == Cross(a, b);
    assert ring[..3][..2] == ring[..2];
    assert Chain(ring[..3]) == Cross(a, b) + Cross(b, c);
    assert ring[..3] == ring[..|ring| - 1];
  }

  /** The square with corners (0, 0) and (k, k) has area k * k; the 10 by 10 square has area 100. */
  lemma AreaOfSquare(k: int)
    ensures Area([Pt(0, 0), Pt(k, 0), Pt(k, k), Pt(0, k)]) == (k * k) as real
  {
    ShoelaceOfFour(Pt(0, 0), Pt(k, 0), Pt(k, k), Pt(0, k));
  }

  // ---------------------------------------------------------------------
  // Point in polygon

  /**
   * The ray-casting test for one edge from a (vertex i) to b (vertex j):
   * the edge straddles the horizontal line through p (half-open in y) and
   * meets it strictly to the right of p. The division is only evaluated
   * once the straddle test holds, and then a.y != b.y.
   */
  function Crosses(p: Pt, a: Pt, b: Pt): (r: bool)
    ensures r ==> a.y != b.y
  {
    ((a.y > p.y) != (b.y > p.y)) &&
    (p.x as real < ((b.x - a.x) as real) * ((p.y - a.y) as real) / ((b.y - a.y) as real) + a.x as real)
  }

  /** The vertex before vertex i in the ring of n vertices. */
  function Prev(i: nat, n: nat): nat
    requires i < n
  {
    if i == 0 then n - 1 else i - 1
  }

  /** The number of the edges (polygon[i], polygon[Prev(i)]), i < k, that the ray from p crosses. */
  function Crossings(p: Pt, polygon: seq<Pt>, k: nat): (r: nat)
    requires k <= |polygon|
    ensures r <= k
  {
    if k == 0 then 0
    else Crossings(p, polygon, k - 1) + (if Crosses(p, polygon[k - 1], polygon[Prev(k - 1, |polygon|)]) then 1 else 0)
  }

  /** The even-odd rule: p is inside when the ray crosses the ring an odd number of times. */
  predicate Inside(p: Pt, polygon: seq<Pt>)
  {
    Crossings(p, polygon, |polygon|) % 2 == 1
  }

  /** isPointInPolygon: walks the edges (i, j) with j trailing i, toggling a flag per crossing. */
  method IsPointInPolygon(p: Pt, polygon: seq<Pt>) returns (inside: bool)
    ensures inside == Inside(p, polygon)
  {
    inside := false;
    var n := |polygon|;
    var i, j := 0, n - 1;
    while i < n
      invariant 0 <= i <= n
      invariant j == if i == 0 then n - 1 else i - 1
      invariant inside == (Crossings(p, polygon, i) % 2 == 1)
    {
      var intersect := Crosses(p, polygon[i], polygon[j]);
      assert j == Prev(i, n);
      assert Crossings(p, polygon, i + 1) == Crossings(p, polygon, i) + (if intersect then 1 else 0);
      if intersect {
        inside := !inside;
      }
      j, i := i, i + 1;
    }
  }

  /** Where the edge from a to b meets the horizontal line through p lies between a.x and b.x. */
  lemma CrossingBetween(p: Pt, a: Pt, b: Pt)
    requires (a.y > p.y) != (b.y > p.y)
    ensures var cx := ((b.x - a.x) as real) * ((p.y - a.y) as real) / ((b.y - a.y) as real) + a.x as real;
      (cx <= a.x as real || cx <= b.x as real) &&
      (a.x as real <= cx || b.x as real <= cx)
  {
    var num, den := (p.y - a.y) as real, (b.y - a.y) as real;
    var t := num / den;
    assert t * den == num;
    if a.y > p.y {
      assert den < 0.0 && num < 0.0 && num >= den;
    } else {
      assert den > 0.0 && num >= 0.0 && num < den;
    }
    assert 0.0 <= t <= 1.0;
    var cx := ((b.x - a.x) as real) * num / den + a.x as real;
    assert cx == (1.0 - t) * a.x as real + t * b.x as real;
  }

  lemma NoCrossingFromTheRight(p: Pt, a: Pt, b: Pt)
    requires a.x <= p.x && b.x <= p.x
    ensures !Crosses(p, a, b)
  {
    if (a.y > p.y) != (b.y > p.y) {
      CrossingBetween(p, a, b);
    }
  }

  /** A point at or to the right of every vertex is outside. */
  lemma {:induction false} RightOfAllVerticesIsOutside(p: Pt, polygon: seq<Pt>, k: nat)
    requires k <= |polygon|
    requires forall i :: 0 <= i < |polygon| ==> polygon[i].x <= p.x
    ensures Crossings(p, polygon, k) == 0
    ensures k == |polygon| ==> !Inside(p, polygon)
  {
    if k > 0 {
      RightOfAllVerticesIsOutside(p, polygon, k - 1);
      var a, b := polygon[k - 1], polygon[Prev(k - 1, |polygon|)];
      NoCrossingFromTheRight(p, a, b);
    }
  }

  /** A point strictly above or at/below every vertex (in y) is outside: no edge straddles its ray. */
  lemma {:induction false} OutsideVerticalSpanIsOutside(p: Pt, polygon: seq<Pt>, k: nat)
    requires k <= |polygon|
    requires (forall i :: 0 <= i < |polygon| ==> polygon[i].y > p.y) ||
             (forall i :: 0 <= i < |polygon| ==> polygon[i].y <= p.y)
    ensures Crossings(p, polygon, k) == 0
    ensures k == |polygon| ==> !Inside(p, polygon)
  {
    if k > 0 {
      OutsideVerticalSpanIsOutside(p, polygon, k - 1);
    }
  }

  /** The two examples on the 10 by 10 square: (5, 5) is inside, (15, 15) is not. */
  lemma SquareExamples()
    ensures Inside(Pt(5, 5), [Pt(0, 0), Pt(10, 0), Pt(10, 10), Pt(0, 10)])
    ensures !Inside(Pt(15, 15), [Pt(0, 0), Pt(10, 0), Pt(10, 10), Pt(0, 10)])
  {
    var sq := [Pt(0, 0), Pt(10, 0), Pt(10, 10), Pt(0, 10)];
    var p := Pt(5, 5);
    assert !Crosses(p, sq[0], sq[3]);
    assert Crossings(p, sq, 1) == 0;
    assert !Crosses(p, sq[1], sq[0]);
    assert Crossings(p, sq, 2) == 0;
    assert Crosses(p, sq[2], sq[1]);
    assert Crossings(p, sq, 3) == 1;
    assert !Crosses(p, sq[3], sq[2]);
    assert Crossings(p, sq, 4) == 1;
    OutsideVerticalSpanIsOutside(Pt(15, 15), sq, 4);
  }

  // ---------------------------------------------------------------------
  // Distance

  /** The squared Euclidean distance between p and q. */
  function DistSq(p: Pt, q: Pt): (r: nat)
    ensures r == 0 <==> p == q
  {
    (p.x - q.x) * (p.x - q.x) + (p.y - q.y) * (p.y - q.y)
  }

  /**
   * The Euclidean distance from p to q is below radius. For a non-negative
   * d and radius > 0, sqrt(d) < radius exactly when d < radius * radius.
   */
  predicate WithinRadius(p: Pt, q: Pt, radius: nat)
  {
    DistSq(p, q) < radius * radius
  }

  /**
   * A point is within any positive radius of itself, and a point within
   * the radius differs by less than the radius along each axis.
   */
  lemma WithinRadiusBounds(p: Pt, q: Pt, radius: nat)
    ensures p == q && radius > 0 ==> WithinRadius(p, q, radius)
    ensures WithinRadius(p, q, radius) ==> Abs(p.x - q.x) < radius && Abs(p.y - q.y) < radius
  {
    var dx, dy := p.x - q.x, p.y - q.y;
    assert DistSq(p, q) == dx * dx + dy * dy;
    if radius > 0 {
      assert radius * radius >= radius;
    }
    SquareBelow(dx, dy * dy, radius);
    SquareBelow(dy, dx * dx, radius);
  }

  /** A coordinate difference whose square, plus something non-negative, is below radius^2 is below radius. */
  lemma SquareBelow(a: int, rest: nat, radius: nat)
    ensures a * a + rest < radius * radius ==> Abs(a) < radius
  {
    if Abs(a) >= radius {
      assert a * a == Abs(a) * Abs(a);
      assert Abs(a) * Abs(a) >= radius * Abs(a);
      assert radius * Abs(a) >= radius * radius;
    }
  }
}
