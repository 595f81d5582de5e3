/** The pointer handlers of the component as transitions of its state: hit
    testing, the drag gesture that sets a ball's velocity, and recolouring.
    The component keeps the active ball as an object reference; here it is
    the ball's index in the list. */
module Interaction {
  import opened Balls

  datatype Point = Point(x: real, y: real)

  /** What the handlers read and write: the ball list, the ball being dragged
      or recoloured, whether the colour picker is open, and the press point. */
  datatype Ui = Ui(balls: seq<Ball>, activeBall: Option<nat>, isModalOpen: bool,
                   mouseDownPosition: Option<Point>)

  /** The point lies on the closed disc. `handleDoubleClick` and
      `handleMouseDown` compare hypot(dx, dy) with the radius;
      HitIsDistanceTest shows this form is the same test. */
  predicate Hits(b: Ball, px: real, py: real)
  {
    0.0 <= b.radius &&
    Square(px - b.x) + Square(py - b.y) <= b.radius * b.radius
  }

  lemma HitIsDistanceTest(m: MathFns, b: Ball, px: real, py: real)
    requires 0.0 <= m.sqrt(Square(px - b.x) + Square(py - b.y))
    requires m.sqrt(Square(px - b.x) + Square(py - b.y))
           * m.sqrt(Square(px - b.x) + Square(py - b.y))
          == Square(px - b.x) + Square(py - b.y)
    ensures (m.sqrt(Square(px - b.x) + Square(py - b.y)) <= b.radius) <==> Hits(b, px, py)
  {
    var d2 := Square(px - b.x) + Square(py - b.y);
    RootCompare(m.sqrt(d2), d2, b.radius);
  }

  /** Ball k is the first ball in list order that the point hits. */
  predicate FirstHit(s: seq<Ball>, px: real, py: real, k: nat)
  {
    k < |s| && Hits(s[k], px, py) && forall j :: 0 <= j < k ==> !Hits(s[j], px, py)
  }

  predicate NoHit(s: seq<Ball>, px: real, py: real)
  {
    forall j :: 0 <= j < |s| ==> !Hits(s[j], px, py)
  }

  /** The list's `find`: the index of the first ball under the point, if any. */
  function HitTest(s: seq<Ball>, px: real, py: real): (r: Option<nat>)
    ensures r.Some? ==> FirstHit(s, px, py, r.value)
    ensures r.None? <==> NoHit(s, px, py)
    ensures forall k: nat :: FirstHit(s, px, py, k) ==> r == Some(k)
  {
    if s == [] then None
    else if Hits(s[0], px, py) then Some(0)
    else match HitTest(s[1..], px, py)
      case None => None
      case Some(k) => Some(k + 1)
  }

  /** A double click on a ball makes it the recolour target and opens the
      colour picker; anywhere else it does nothing. */
  function DoubleClick(st: Ui, px: real, py: real): (r: Ui)
    ensures r.balls == st.balls && r.mouseDownPosition == st.mouseDownPosition
    ensures NoHit(st.balls, px, py) ==> r == st
    ensures !NoHit(st.balls, px, py) ==>
      r.isModalOpen && r.activeBall.Some? && FirstHit(st.balls, px, py, r.activeBall.value)
  {
    match HitTest(st.balls, px, py)
    case Some(k) => st.(activeBall := Some(k), isModalOpen := true)
    case None => st
  }

  /** Pressing on a ball starts a drag of that ball from the press point;
      pressing anywhere else does nothing. */
  function MouseDown(st: Ui, px: real, py: real): (r: Ui)
    ensures r.balls == st.balls && r.isModalOpen == st.isModalOpen
    ensures NoHit(st.balls, px, py) ==> r == st
    ensures !NoHit(st.balls, px, py) ==>
      r.activeBall.Some? && FirstHit(st.balls, px, py, r.activeBall.value) &&
      r.mouseDownPosition == Some(Point(px, py))
  {
    match HitTest(st.balls, px, py)
    case Some(k) => st.(activeBall := Some(k), mouseDownPosition := Some(Point(px, py)))
    case None => st
  }

  /** Overwrite the velocity of ball k (an index past the end matches no ball). */
  function SetVelocity(s: seq<Ball>, k: nat, vx: real, vy: real): (r: seq<Ball>)
    ensures SameLayouts(r, s)
    ensures forall j :: 0 <= j < |s| && j != k ==> r[j] == s[j]
    ensures k < |s| ==> r[k].vx == vx && r[k].vy == vy
  {
    if k < |s| then s[k := s[k].(vx := vx, vy := vy)] else s
  }

  /** The velocity a drag from `press` to `current` assigns: the displacement
      direction, with its length capped at MaxSpeed. Releasing the drag
      where it started gives no velocity, for any root that maps 0 to 0. */
  function DragVelocity(m: MathFns, press: Point, current: Point): (r: (real, real))
    ensures current == press && m.sqrt(0.0) == 0.0 ==> r == (0.0, 0.0)
  {
    var dx := current.x - press.x;
    var dy := current.y - press.y;
    assert current == press ==> Square(dx) + Square(dy) == 0.0;
    var force := m.sqrt(Square(dx) + Square(dy));
    var direction := m.atan2(dy, dx);
    var speed := Min(force, MaxSpeed);
    assert current == press && m.sqrt(0.0) == 0.0 ==> force == 0.0 && speed == 0.0;
    (speed * m.cos(direction), speed * m.sin(direction))
  }

  /** Dragging overwrites the active ball's velocity with the drag velocity;
      without an active ball and a press point nothing happens. */
  function MouseMove(m: MathFns, st: Ui, px: real, py: real): (r: Ui)
    ensures r.activeBall == st.activeBall && r.isModalOpen == st.isModalOpen
    ensures r.mouseDownPosition == st.mouseDownPosition
    ensures SameLayouts(r.balls, st.balls)
    ensures st.activeBall.None? || st.mouseDownPosition.None? ==> r == st
    ensures forall j :: 0 <= j < |st.balls| && st.activeBall != Some(j) ==> r.balls[j] == st.balls[j]
    ensures st.activeBall.Some? && st.mouseDownPosition.Some? && st.activeBall.value < |st.balls| ==>
      var v := DragVelocity(m, st.mouseDownPosition.value, Point(px, py));
      r.balls[st.activeBall.value].vx == v.0 && r.balls[st.activeBall.value].vy == v.1
  {
    if st.activeBall.None? || st.mouseDownPosition.None? then st
    else
      var (vx, vy) := DragVelocity(m, st.mouseDownPosition.value, Point(px, py));
      st.(balls := SetVelocity(st.balls, st.activeBall.value, vx, vy))
  }

  /** A later move event replaces what an earlier one assigned: in the index
      model two moves in a row leave the state the second one alone would. */
  lemma MoveOverwrites(m: MathFns, st: Ui, p1: Point, p2: Point)
    ensures MouseMove(m, MouseMove(m, st, p1.x, p1.y), p2.x, p2.y) == MouseMove(m, st, p2.x, p2.y)
  {
  }

  /** `handleMouseMove` as written, with the object identity it depends on.
      `attached` says whether the list still holds the very object that
      `activeBall` refers to; a press stores a list element, so a drag starts
      attached. An attached move writes the velocity into that object and then
      replaces it in the list by a spread copy, so the drag is detached from
      then on. A detached move writes into an object the list no longer
      holds, and the identity comparison in the `map` matches no ball. */
  function MouseMoveAsWritten(m: MathFns, st: Ui, attached: bool, px: real, py: real): (r: (Ui, bool))
    ensures attached ==> r.0 == MouseMove(m, st, px, py)
    ensures !attached ==> r.0 == st
    ensures r.1 <==> attached && (st.activeBall.None? || st.mouseDownPosition.None?)
  {
    if st.activeBall.None? || st.mouseDownPosition.None? then (st, attached)
    else if attached then (MouseMove(m, st, px, py), false)
    else (st, false)
  }

  /** As written, only the first move of a drag reaches the list: after two
      moves the list is what the first move alone makes of it. */
  lemma OnlyFirstMoveReachesList(m: MathFns, st: Ui, p1: Point, p2: Point)
    ensures var (s1, attached1) := MouseMoveAsWritten(m, st, true, p1.x, p1.y);
      MouseMoveAsWritten(m, s1, attached1, p2.x, p2.y).0 == MouseMove(m, st, p1.x, p1.y)
  {
  }

  /** A drag of the first starting ball from (100, 100) through (101, 100) to
      (105, 100), with a root that is exact at 1 and 25: as written the ball
      keeps vx = 1 from the first move, where the index model gives vx = 5. */
  lemma SecondMoveLost()
    ensures var m := MathFns(x => if x == 25.0 then 5.0 else if x == 1.0 then 1.0 else 0.0,
                             (y, x) => 0.0, t => 1.0, t => 0.0);
      var st := Ui(InitialBalls(), Some(0), false, Some(Point(100.0, 100.0)));
      var (s1, attached1) := MouseMoveAsWritten(m, st, true, 101.0, 100.0);
      MouseMoveAsWritten(m, s1, attached1, 105.0, 100.0).0.balls[0].vx == 1.0 &&
      MouseMove(m, MouseMove(m, st, 101.0, 100.0), 105.0, 100.0).balls[0].vx == 5.0
  {
  }

  /** Releasing the button ends the drag; the ball keeps its velocity. */
  function MouseUp(st: Ui): (r: Ui)
    ensures r.balls == st.balls && r.isModalOpen == st.isModalOpen
    ensures r.activeBall.None? && r.mouseDownPosition.None?
  {
    st.(activeBall := None, mouseDownPosition := None)
  }

  /** Give ball k the colour c (an index past the end matches no ball). */
  function Recolor(s: seq<Ball>, k: nat, c: string): (r: seq<Ball>)
    ensures |r| == |s|
    ensures forall j :: 0 <= j < |s| && j != k ==> r[j] == s[j]
    ensures k < |s| ==>
      (r[k].color == c && r[k].x == s[k].x && r[k].y == s[k].y &&
       r[k].radius == s[k].radius && r[k].vx == s[k].vx && r[k].vy == s[k].vy)
  {
    if k < |s| then s[k := s[k].(color := c)] else s
  }

  /** Recolouring twice leaves the last colour, whatever the first was. */
  lemma RecolorLastWins(s: seq<Ball>, k: nat, c1: string, c2: string)
    ensures Recolor(Recolor(s, k, c1), k, c2) == Recolor(s, k, c2)
  {
  }

  /** Confirming a colour in the picker recolours the target ball and closes
      the picker; without a target nothing happens. */
  function ColorChange(st: Ui, c: string): (r: Ui)
    ensures st.activeBall.None? ==> r == st
    ensures st.activeBall.Some? ==>
      r.balls == Recolor(st.balls, st.activeBall.value, c) && !r.isModalOpen &&
      r.activeBall == st.activeBall && r.mouseDownPosition == st.mouseDownPosition
  {
    match st.activeBall
    case None => st
    case Some(k) => st.(balls := Recolor(st.balls, k, c), isModalOpen := false)
  }
}
