/** The first half of a frame: Euler integration of every ball followed by
    reflection and clamping at the four walls, one axis at a time. */
module Walls {
  import opened Balls

  /** Position and velocity of a ball along one axis. */
  datatype AxisState = AxisState(pos: real, vel: real)

  /** The disc at `pos` sticks out of the interval [0, dim]. */
  predicate Crossed(pos: real, radius: real, dim: real)
  {
    pos - radius < 0.0 || pos + radius > dim
  }

  /** One axis of the wall rule, applied to the already integrated position:
      a crossing reflects and damps the velocity and clamps the position into
      [radius, dim - radius]; otherwise nothing changes. */
  function WallAxis(pos: real, vel: real, radius: real, dim: real): (r: AxisState)
    ensures 2.0 * radius <= dim ==> radius <= r.pos <= dim - radius
    ensures Crossed(pos, radius, dim) ==> r.vel == -Restitution * vel
    ensures pos - radius < 0.0 ==> r.pos == radius
    ensures 2.0 * radius <= dim && pos + radius > dim ==> r.pos == dim - radius
    ensures !Crossed(pos, radius, dim) ==> r.pos == pos && r.vel == vel
  {
    if Crossed(pos, radius, dim) then
      AxisState(Max(radius, Min(dim - radius, pos)), -Restitution * vel)
    else
      AxisState(pos, vel)
  }

  /** The wall step of one ball on a width x height table. */
  function StepBall(b: Ball, width: real, height: real): (r: Ball)
    ensures r.radius == b.radius && r.color == b.color
    ensures FitsTable(b, width, height) ==> InBounds(r, width, height)
    ensures Crossed(b.x + b.vx, b.radius, width) ==> r.vx == -Restitution * b.vx
    ensures !Crossed(b.x + b.vx, b.radius, width) ==> r.x == b.x + b.vx && r.vx == b.vx
    ensures b.x + b.vx - b.radius < 0.0 ==> r.x == b.radius
    ensures 2.0 * b.radius <= width && b.x + b.vx + b.radius > width ==> r.x == width - b.radius
    ensures Crossed(b.y + b.vy, b.radius, height) ==> r.vy == -Restitution * b.vy
    ensures !Crossed(b.y + b.vy, b.radius, height) ==> r.y == b.y + b.vy && r.vy == b.vy
    ensures b.y + b.vy - b.radius < 0.0 ==> r.y == b.radius
    ensures 2.0 * b.radius <= height && b.y + b.vy + b.radius > height ==> r.y == height - b.radius
  {
    var h := WallAxis(b.x + b.vx, b.vx, b.radius, width);
    var v := WallAxis(b.y + b.vy, b.vy, b.radius, height);
    b.(x := h.pos, vx := h.vel, y := v.pos, vy := v.vel)
  }

  /** The wall step of the whole list, ball by ball. */
  function StepAll(s: seq<Ball>, width: real, height: real): (r: seq<Ball>)
    ensures |r| == |s|
    ensures AllFit(s, width, height) ==> AllInBounds(r, width, height)
    ensures forall k :: 0 <= k < |s| ==> r[k].radius == s[k].radius && r[k].color == s[k].color
  {
    seq(|s|, k requires 0 <= k < |s| => StepBall(s[k], width, height))
  }

  /** The horizontal outcome depends on x, vx and the radius only, and the
      vertical one on y, vy and the radius only. */
  lemma AxesIndependent(b: Ball, c: Ball, width: real, height: real)
    ensures b.x == c.x && b.vx == c.vx && b.radius == c.radius ==>
      StepBall(b, width, height).x == StepBall(c, width, height).x &&
      StepBall(b, width, height).vx == StepBall(c, width, height).vx
    ensures b.y == c.y && b.vy == c.vy && b.radius == c.radius ==>
      StepBall(b, width, height).y == StepBall(c, width, height).y &&
      StepBall(b, width, height).vy == StepBall(c, width, height).vy
  {
  }

  /** A ball moving left at speed 5 that would end 6 units past the left wall
      comes back at speed 1.5, with its edge on the wall. */
  lemma LeftWallBounce()
    ensures StepBall(Ball(19.0, 100.0, 20.0, "#ff0000", -5.0, 0.0), CanvasWidth, CanvasHeight)
            == Ball(20.0, 100.0, 20.0, "#ff0000", 1.5, 0.0)
  {
  }

  /** A ball at rest on the table is a fixed point of the wall step. */
  lemma RestingBallStays(b: Ball, width: real, height: real)
    requires InBounds(b, width, height) && b.vx == 0.0 && b.vy == 0.0
    ensures StepBall(b, width, height) == b
  {
  }

  /** The wall step on the canvas: every ball of the array is advanced and
      bounced in place, in list order. */
  method UpdateBallsPosition(a: array<Ball>, width: real, height: real)
    modifies a
    ensures a[..] == StepAll(old(a[..]), width, height)
  {
    var i := 0;
    while i < a.Length
      invariant 0 <= i <= a.Length
      invariant forall k :: 0 <= k < i ==> a[k] == StepBall(old(a[k]), width, height)
      invariant forall k :: i <= k < a.Length ==> a[k] == old(a[k])
    {
      var ball := a[i];
      ball := ball.(x := ball.x + ball.vx, y := ball.y + ball.vy);
      if ball.x - ball.radius < 0.0 || ball.x + ball.radius > width {
        ball := ball.(vx := -Restitution * ball.vx,
                      x := Max(ball.radius, Min(width - ball.radius, ball.x)));
      }
      if ball.y - ball.radius < 0.0 || ball.y + ball.radius > height {
        ball := ball.(vy := -Restitution * ball.vy,
                      y := Max(ball.radius, Min(height - ball.radius, ball.y)));
      }
      a[i] := ball;
      i := i + 1;
    }
  }
}
