/** The one entity of the billiard table, the constants of its physics, and
    the facts about ball lists that the physics and the interaction share. */
module Balls {

  /** A disc on the table: centre, radius, fill colour and velocity in
      table units per frame. JavaScript numbers are modelled as reals. */
  datatype Ball = Ball(x: real, y: real, radius: real, color: string, vx: real, vy: real)

  datatype Option<T> = None | Some(value: T)

  /** The library functions the physics calls, left uninterpreted: every
      property proved here holds whatever values they return. */
  datatype MathFns = MathFns(
    sqrt: real -> real,
    atan2: (real, real) -> real,
    cos: real -> real,
    sin: real -> real)

  /** Damping of a wall bounce; the collision pass reuses it as impulse scale. */
  const Restitution: real := 3.0 / 10.0

  /** Cap on the speed a drag gesture assigns. */
  const MaxSpeed: real := 10.0

  /** Size of the canvas the component renders. */
  const CanvasWidth: real := 900.0
  const CanvasHeight: real := 500.0

  /** The two balls the component starts with. */
  function InitialBalls(): seq<Ball>
  {
    [Ball(100.0, 100.0, 20.0, "#ff0000", 0.0, 0.0),
     Ball(500.0, 200.0, 20.0, "#00ff00", 0.0, 0.0)]
  }

  function Square(t: real): real { t * t }

  function Min(a: real, b: real): real { if a <= b then a else b }

  function Max(a: real, b: real): real { if a >= b then a else b }

  /** The whole disc lies on the table [0, width] x [0, height]. */
  predicate InBounds(b: Ball, width: real, height: real)
  {
    b.radius <= b.x <= width - b.radius && b.radius <= b.y <= height - b.radius
  }

  /** The table is wide and high enough to hold the disc at all. */
  predicate FitsTable(b: Ball, width: real, height: real)
  {
    2.0 * b.radius <= width && 2.0 * b.radius <= height
  }

  predicate AllFit(s: seq<Ball>, width: real, height: real)
  {
    forall k :: 0 <= k < |s| ==> FitsTable(s[k], width, height)
  }

  predicate AllInBounds(s: seq<Ball>, width: real, height: real)
  {
    forall k :: 0 <= k < |s| ==> InBounds(s[k], width, height)
  }

  /** The two balls can differ only in their velocities. */
  predicate SameLayout(b: Ball, c: Ball)
  {
    b.x == c.x && b.y == c.y && b.radius == c.radius && b.color == c.color
  }

  /** Two lists of equal length whose balls can differ only in velocity. */
  predicate SameLayouts(s: seq<Ball>, t: seq<Ball>)
  {
    |s| == |t| && forall k :: 0 <= k < |s| ==> SameLayout(s[k], t[k])
  }

  datatype Axis = Horizontal | Vertical

  function Velocity(b: Ball, axis: Axis): real
  {
    match axis
    case Horizontal => b.vx
    case Vertical => b.vy
  }

  /** Sum of one velocity component over the whole list. */
  function TotalVelocity(s: seq<Ball>, axis: Axis): real
  {
    if s == [] then 0.0 else Velocity(s[0], axis) + TotalVelocity(s[1..], axis)
  }

  /** Replacing one ball changes the total by exactly the change of that ball. */
  lemma {:induction false} TotalVelocityUpdate(s: seq<Ball>, k: nat, b: Ball, axis: Axis)
    requires k < |s|
    ensures TotalVelocity(s[k := b], axis)
            == TotalVelocity(s, axis) - Velocity(s[k], axis) + Velocity(b, axis)
  {
    if k == 0 {
      assert s[k := b][1..] == s[1..];
    } else {
      assert s[k := b][1..] == s[1..][k - 1 := b];
      TotalVelocityUpdate(s[1..], k - 1, b, axis);
    }
  }

  /** A non-negative root compares with a bound as its square does with the
      bound's square, once the bound is known to be positive (strict) or
      non-negative (non-strict). */
  lemma RootCompare(root: real, square: real, bound: real)
    requires 0.0 <= root && root * root == square
    ensures root < bound <==> 0.0 < bound && square < bound * bound
    ensures root <= bound <==> 0.0 <= bound && square <= bound * bound
  {
    if 0.0 <= bound {
      if root < bound {
        calc {
          square;
        ==
          root * root;
        <=
          root * bound;
        <
          bound * bound;
        }
      } else if root == bound {
        assert square == bound * bound;
      } else {
        calc {
          bound * bound;
        <=
          bound * root;
        <
          root * root;
        ==
          square;
        }
      }
    }
  }
}
