/** The second half of a frame: one pass over every pair i < j in index
    order, pushing overlapping pairs apart in velocity (never in position). */
module Collisions {
  import opened Balls

  /** Squared distance between the two centres. */
  function DistanceSquared(b1: Ball, b2: Ball): real
  {
    Square(b2.x - b1.x) + Square(b2.y - b1.y)
  }

  /** The centres are closer than the sum of the radii. `resolveCollisions`
      compares sqrt(dx*dx + dy*dy) with the sum; this form drops the root and keeps the
      sum positive, which OverlapIsDistanceTest shows to be the same test. */
  predicate Overlap(b1: Ball, b2: Ball)
  {
    var minDistance := b1.radius + b2.radius;
    0.0 < minDistance && DistanceSquared(b1, b2) < minDistance * minDistance
  }

  /** For any function that really is a square root at the squared distance,
      the root-based test of `resolveCollisions` and Overlap agree. */
  lemma OverlapIsDistanceTest(m: MathFns, b1: Ball, b2: Ball)
    requires 0.0 <= m.sqrt(DistanceSquared(b1, b2))
    requires m.sqrt(DistanceSquared(b1, b2)) * m.sqrt(DistanceSquared(b1, b2)) == DistanceSquared(b1, b2)
    ensures (m.sqrt(DistanceSquared(b1, b2)) < b1.radius + b2.radius) <==> Overlap(b1, b2)
  {
    RootCompare(m.sqrt(DistanceSquared(b1, b2)), DistanceSquared(b1, b2), b1.radius + b2.radius);
  }

  /** Overlap reads positions and radii only, and is symmetric. */
  lemma OverlapSymmetric(b1: Ball, b2: Ball)
    ensures Overlap(b1, b2) <==> Overlap(b2, b1)
  {
  }

  /** The impulse vector of an overlapping pair: restitution times the
      relative speed, along the contact angle, scaled by ball 1's share of
      the summed radii. Balls moving together get no impulse, for any root
      that maps 0 to 0. */
  function Impulse(m: MathFns, b1: Ball, b2: Ball): (r: (real, real))
    requires Overlap(b1, b2)
    ensures b1.vx == b2.vx && b1.vy == b2.vy && m.sqrt(0.0) == 0.0 ==> r == (0.0, 0.0)
  {
    var angle := m.atan2(b2.y - b1.y, b2.x - b1.x);
    var relativeSpeed := m.sqrt(Square(b2.vx - b1.vx) + Square(b2.vy - b1.vy));
    var impulse := Restitution * relativeSpeed;
    var share := b1.radius / (b1.radius + b2.radius);
    (impulse * m.cos(angle) * share, impulse * m.sin(angle) * share)
  }

  /** Visit of the pair (i, j): an overlapping pair gets the impulse taken
      from ball i and given to ball j; any other pair is left alone. */
  function CollidePair(m: MathFns, s: seq<Ball>, i: nat, j: nat): (r: seq<Ball>)
    requires i < j < |s|
    ensures SameLayouts(r, s)
    ensures forall k :: 0 <= k < |s| && k != i && k != j ==> r[k] == s[k]
    ensures !Overlap(s[i], s[j]) ==> r == s
    ensures Overlap(s[i], s[j]) ==>
      r[i].vx == s[i].vx - Impulse(m, s[i], s[j]).0 && r[i].vy == s[i].vy - Impulse(m, s[i], s[j]).1 &&
      r[j].vx == s[j].vx + Impulse(m, s[i], s[j]).0 && r[j].vy == s[j].vy + Impulse(m, s[i], s[j]).1
    ensures r[i].vx - s[i].vx == -(r[j].vx - s[j].vx) && r[i].vy - s[i].vy == -(r[j].vy - s[j].vy)
  {
    if Overlap(s[i], s[j]) then
      var (ix, iy) := Impulse(m, s[i], s[j]);
      s[i := s[i].(vx := s[i].vx - ix, vy := s[i].vy - iy)]
       [j := s[j].(vx := s[j].vx + ix, vy := s[j].vy + iy)]
    else
      s
  }

  /** The inner loop for ball i: pairs (i, j), (i, j + 1), ..., in order. */
  function InnerPass(m: MathFns, s: seq<Ball>, i: nat, j: nat): (r: seq<Ball>)
    requires i < j <= |s|
    ensures SameLayouts(r, s)
    decreases |s| - j
  {
    if j == |s| then s else InnerPass(m, CollidePair(m, s, i, j), i, j + 1)
  }

  /** The outer loop from ball i on. */
  function OuterPass(m: MathFns, s: seq<Ball>, i: nat): (r: seq<Ball>)
    requires i <= |s|
    ensures SameLayouts(r, s)
    decreases |s| - i
  {
    if i == |s| then s else OuterPass(m, InnerPass(m, s, i, i + 1), i + 1)
  }

  /** The whole collision pass: positions, radii, colours, length and order
      of the list are kept; only velocities change. */
  function Collide(m: MathFns, s: seq<Ball>): (r: seq<Ball>)
    ensures SameLayouts(r, s)
  {
    OuterPass(m, s, 0)
  }

  lemma PairConservesTotal(m: MathFns, s: seq<Ball>, i: nat, j: nat, axis: Axis)
    requires i < j < |s|
    ensures TotalVelocity(CollidePair(m, s, i, j), axis) == TotalVelocity(s, axis)
  {
    if Overlap(s[i], s[j]) {
      var (ix, iy) := Impulse(m, s[i], s[j]);
      var t := s[i := s[i].(vx := s[i].vx - ix, vy := s[i].vy - iy)];
      TotalVelocityUpdate(s, i, t[i], axis);
      TotalVelocityUpdate(t, j, s[j].(vx := s[j].vx + ix, vy := s[j].vy + iy), axis);
    }
  }

  lemma {:induction false} InnerConservesTotal(m: MathFns, s: seq<Ball>, i: nat, j: nat, axis: Axis)
    requires i < j <= |s|
    ensures TotalVelocity(InnerPass(m, s, i, j), axis) == TotalVelocity(s, axis)
    decreases |s| - j
  {
    if j < |s| {
      PairConservesTotal(m, s, i, j, axis);
      InnerConservesTotal(m, CollidePair(m, s, i, j), i, j + 1, axis);
    }
  }

  lemma {:induction false} OuterConservesTotal(m: MathFns, s: seq<Ball>, i: nat, axis: Axis)
    requires i <= |s|
    ensures TotalVelocity(OuterPass(m, s, i), axis) == TotalVelocity(s, axis)
    decreases |s| - i
  {
    if i < |s| {
      InnerConservesTotal(m, s, i, i + 1, axis);
      OuterConservesTotal(m, InnerPass(m, s, i, i + 1), i + 1, axis);
    }
  }

  /** Equal and opposite impulses: the summed vx and the summed vy of the
      list are the same before and after the pass. */
  lemma CollideConservesTotal(m: MathFns, s: seq<Ball>)
    ensures TotalVelocity(Collide(m, s), Horizontal) == TotalVelocity(s, Horizontal)
    ensures TotalVelocity(Collide(m, s), Vertical) == TotalVelocity(s, Vertical)
  {
    OuterConservesTotal(m, s, 0, Horizontal);
    OuterConservesTotal(m, s, 0, Vertical);
  }

  /** Ball k overlaps no other ball of the list. */
  predicate Isolated(s: seq<Ball>, k: nat)
  {
    k < |s| && forall j :: 0 <= j < |s| && j != k ==> !Overlap(s[k], s[j])
  }

  lemma IsolatedKeptByLayout(s: seq<Ball>, t: seq<Ball>, k: nat)
    requires SameLayouts(s, t) && Isolated(s, k)
    ensures Isolated(t, k)
  {
  }

  lemma {:induction false} InnerKeepsIsolated(m: MathFns, s: seq<Ball>, i: nat, j: nat, k: nat)
    requires i < j <= |s| && Isolated(s, k)
    ensures InnerPass(m, s, i, j)[k] == s[k]
    decreases |s| - j
  {
    if j < |s| {
      var t := CollidePair(m, s, i, j);
      if k == i {
        assert !Overlap(s[i], s[j]);
      } else if k == j {
        assert !Overlap(s[j], s[i]);
        OverlapSymmetric(s[i], s[j]);
      }
      assert t[k] == s[k];
      IsolatedKeptByLayout(s, t, k);
      InnerKeepsIsolated(m, t, i, j + 1, k);
    }
  }

  lemma {:induction false} OuterKeepsIsolated(m: MathFns, s: seq<Ball>, i: nat, k: nat)
    requires i <= |s| && Isolated(s, k)
    ensures OuterPass(m, s, i)[k] == s[k]
    decreases |s| - i
  {
    if i < |s| {
      var t := InnerPass(m, s, i, i + 1);
      InnerKeepsIsolated(m, s, i, i + 1, k);
      IsolatedKeptByLayout(s, t, k);
      OuterKeepsIsolated(m, t, i + 1, k);
    }
  }

  /** A ball that overlaps no other ball leaves the pass exactly as it came. */
  lemma IsolatedUnchanged(m: MathFns, s: seq<Ball>, k: nat)
    requires Isolated(s, k)
    ensures Collide(m, s)[k] == s[k]
  {
    OuterKeepsIsolated(m, s, 0, k);
  }

  /** No two balls overlap. */
  predicate Separated(s: seq<Ball>)
  {
    forall i, j :: 0 <= i < j < |s| ==> !Overlap(s[i], s[j])
  }

  /** Without overlapping pairs the pass changes nothing. */
  lemma SeparatedUnchanged(m: MathFns, s: seq<Ball>)
    requires Separated(s)
    ensures Collide(m, s) == s
  {
    forall k | 0 <= k < |s|
      ensures Collide(m, s)[k] == s[k]
    {
      forall j | 0 <= j < |s| && j != k
        ensures !Overlap(s[k], s[j])
      {
        if j < k {
          OverlapSymmetric(s[j], s[k]);
        }
      }
      IsolatedUnchanged(m, s, k);
    }
  }

  /** One pair of the collision pass on the canvas, updated in place. */
  method ResolvePair(m: MathFns, a: array<Ball>, i: nat, j: nat)
    requires i < j < a.Length
    modifies a
    ensures a[..] == CollidePair(m, old(a[..]), i, j)
  {
    var ball1 := a[i];
    var ball2 := a[j];
    var dx := ball2.x - ball1.x;
    var dy := ball2.y - ball1.y;
    var minDistance := ball1.radius + ball2.radius;
    if 0.0 < minDistance && dx * dx + dy * dy < minDistance * minDistance {
      var (impulseX, impulseY) := Impulse(m, ball1, ball2);
      a[i] := ball1.(vx := ball1.vx - impulseX, vy := ball1.vy - impulseY);
      a[j] := ball2.(vx := ball2.vx + impulseX, vy := ball2.vy + impulseY);
    }
  }

  /** The collision pass on the canvas: nested loops over every pair i < j
      in index order. */
  method ResolveCollisions(m: MathFns, a: array<Ball>)
    modifies a
    ensures a[..] == Collide(m, old(a[..]))
  {
    ghost var goal := Collide(m, a[..]);
    var i := 0;
    while i < a.Length
      invariant 0 <= i <= a.Length
      invariant OuterPass(m, a[..], i) == goal
    {
      var j := i + 1;
      while j < a.Length
        invariant i < j <= a.Length
        invariant OuterPass(m, InnerPass(m, a[..], i, j), i + 1) == goal
      {
        ghost var pre := a[..];
        assert InnerPass(m, pre, i, j) == InnerPass(m, CollidePair(m, pre, i, j), i, j + 1);
        ResolvePair(m, a, i, j);
        j := j + 1;
      }
      i := i + 1;
    }
  }
}
