/** One animation frame (wall step, then collision pass) and what follows
    over any number of frames. */
module Simulation {
  import opened Balls
  import opened Walls
  import opened Collisions
  import opened Interaction

  /** The list the frame callback stores and draws. */
  function Frame(m: MathFns, s: seq<Ball>, width: real, height: real): (r: seq<Ball>)
    ensures |r| == |s|
    ensures AllFit(s, width, height) ==> AllFit(r, width, height) && AllInBounds(r, width, height)
    ensures forall k :: 0 <= k < |s| ==> r[k].radius == s[k].radius && r[k].color == s[k].color
  {
    Collide(m, StepAll(s, width, height))
  }

  /** The frame callback on the canvas: both passes over the same array. */
  method Tick(m: MathFns, a: array<Ball>, width: real, height: real)
    modifies a
    ensures a[..] == Frame(m, old(a[..]), width, height)
  {
    UpdateBallsPosition(a, width, height);
    ResolveCollisions(m, a);
  }

  /** The list after n frames: same length, radii and colours. */
  function Frames(m: MathFns, s: seq<Ball>, width: real, height: real, n: nat): (r: seq<Ball>)
    ensures |r| == |s|
    ensures forall k :: 0 <= k < |s| ==> r[k].radius == s[k].radius && r[k].color == s[k].color
    decreases n
  {
    if n == 0 then s else Frames(m, Frame(m, s, width, height), width, height, n - 1)
  }

  /** Balls that all fit the table are on it after every frame. */
  lemma {:induction false} ContainedForever(m: MathFns, s: seq<Ball>, width: real, height: real, n: nat)
    requires AllFit(s, width, height) && 0 < n
    ensures AllInBounds(Frames(m, s, width, height, n), width, height)
    decreases n
  {
    if 1 < n {
      ContainedForever(m, Frame(m, s, width, height), width, height, n - 1);
    }
  }

  /** Every ball is on the table and still, and no two overlap. */
  predicate AtRest(s: seq<Ball>, width: real, height: real)
  {
    AllInBounds(s, width, height) && Separated(s) &&
    forall k :: 0 <= k < |s| ==> s[k].vx == 0.0 && s[k].vy == 0.0
  }

  lemma RestingFrame(m: MathFns, s: seq<Ball>, width: real, height: real)
    requires AtRest(s, width, height)
    ensures Frame(m, s, width, height) == s
  {
    assert StepAll(s, width, height) == s;
    SeparatedUnchanged(m, s);
  }

  /** Without input a resting configuration never moves. */
  lemma {:induction false} RestingForever(m: MathFns, s: seq<Ball>, width: real, height: real, n: nat)
    requires AtRest(s, width, height)
    ensures Frames(m, s, width, height, n) == s
    decreases n
  {
    if n > 0 {
      RestingFrame(m, s, width, height);
      RestingForever(m, s, width, height, n - 1);
    }
  }

  /** The two starting balls stay where they are on the 900 x 500 canvas,
      whatever the math library returns. */
  lemma InitialBallsStayPut(m: MathFns, n: nat)
    ensures Frames(m, InitialBalls(), CanvasWidth, CanvasHeight, n) == InitialBalls()
  {
    var s := InitialBalls();
    assert !Overlap(s[0], s[1]);
    RestingForever(m, s, CanvasWidth, CanvasHeight, n);
  }

  lemma ImpulseIgnoresColor(m: MathFns, b1: Ball, b2: Ball, c1: string, c2: string)
    requires Overlap(b1, b2)
    ensures Impulse(m, b1.(color := c1), b2.(color := c2)) == Impulse(m, b1, b2)
  {
    var d1, d2 := b1.(color := c1), b2.(color := c2);
    assert m.sqrt(Square(d2.vx - d1.vx) + Square(d2.vy - d1.vy))
        == m.sqrt(Square(b2.vx - b1.vx) + Square(b2.vy - b1.vy));
    assert m.atan2(d2.y - d1.y, d2.x - d1.x) == m.atan2(b2.y - b1.y, b2.x - b1.x);
    assert d1.radius / (d1.radius + d2.radius) == b1.radius / (b1.radius + b2.radius);
    assert Impulse(m, d1, d2).0 == Impulse(m, b1, b2).0;
    assert Impulse(m, d1, d2).1 == Impulse(m, b1, b2).1;
  }

  lemma CollidePairRecolor(m: MathFns, s: seq<Ball>, i: nat, j: nat, k: nat, c: string)
    requires i < j < |s|
    ensures CollidePair(m, Recolor(s, k, c), i, j) == Recolor(CollidePair(m, s, i, j), k, c)
  {
    var t := Recolor(s, k, c);
    assert t[i] == s[i].(color := t[i].color) && t[j] == s[j].(color := t[j].color);
    if Overlap(s[i], s[j]) {
      ImpulseIgnoresColor(m, s[i], s[j], t[i].color, t[j].color);
    }
  }

  lemma {:induction false} InnerPassRecolor(m: MathFns, s: seq<Ball>, i: nat, j: nat, k: nat, c: string)
    requires i < j <= |s|
    ensures InnerPass(m, Recolor(s, k, c), i, j) == Recolor(InnerPass(m, s, i, j), k, c)
    decreases |s| - j
  {
    if j < |s| {
      CollidePairRecolor(m, s, i, j, k, c);
      InnerPassRecolor(m, CollidePair(m, s, i, j), i, j + 1, k, c);
    }
  }

  lemma {:induction false} OuterPassRecolor(m: MathFns, s: seq<Ball>, i: nat, k: nat, c: string)
    requires i <= |s|
    ensures OuterPass(m, Recolor(s, k, c), i) == Recolor(OuterPass(m, s, i), k, c)
    decreases |s| - i
  {
    if i < |s| {
      InnerPassRecolor(m, s, i, i + 1, k, c);
      OuterPassRecolor(m, InnerPass(m, s, i, i + 1), i + 1, k, c);
    }
  }

  /** Colour plays no part in the physics: recolouring before a frame or
      after it gives the same list. */
  lemma RecolorCommutesWithFrame(m: MathFns, s: seq<Ball>, width: real, height: real, k: nat, c: string)
    ensures Frame(m, Recolor(s, k, c), width, height) == Recolor(Frame(m, s, width, height), k, c)
  {
    assert StepAll(Recolor(s, k, c), width, height) == Recolor(StepAll(s, width, height), k, c);
    OuterPassRecolor(m, StepAll(s, width, height), 0, k, c);
  }
}
