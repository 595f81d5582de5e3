# Billiard table physics, in Dafny

This project models the core of a small React canvas component, `BilliardCanvas`.
The component shows balls on a 900 x 500 table. On every animation frame it moves
each ball by its velocity, bounces the balls off the walls with a damping factor
of 0.3, and then runs one pass over every pair of balls. Each overlapping pair
gets an equal and opposite velocity impulse. With the pointer you can drag a
ball to give it a velocity, and double-click a ball to recolour it.

Modules and files:

- `balls.dfy` (`Balls`): the `Ball` record, the constants (restitution 3/10,
  maximum drag speed 10, the 900 x 500 canvas, the two starting balls), the
  shared predicates (on the table, fits the table, same layout), and the
  per-axis velocity total.
- `walls.dfy` (`Walls`): the wall step. One axis is handled by `WallAxis`, one
  ball by `StepBall`, the list by `StepAll`, and `UpdateBallsPosition` is the
  in-place loop over the array.
- `collisions.dfy` (`Collisions`): the pairwise pass. The functions
  `CollidePair`, `InnerPass`, `OuterPass` and `Collide` mirror the two nested
  loops. `ResolvePair` and `ResolveCollisions` are the in-place methods proved
  against them.
- `interaction.dfy` (`Interaction`): the pointer handlers as transitions of a
  `Ui` record. The record holds the ball list, the active ball, whether the
  colour picker is open, and the press point. This module also holds the hit
  test (`HitTest`) and recolouring (`Recolor`).
- `simulation.dfy` (`Simulation`): one frame (`Frame`, `Tick`), n frames
  (`Frames`), and what holds over many frames.

Modelling choices:

- JavaScript numbers are Dafny `real`s, so the arithmetic is exact.
- `Math.sqrt`, `Math.atan2`, `Math.cos` and `Math.sin` are fields of a
  `MathFns` value that every operation using them takes as a parameter. They
  are total functions about which nothing is assumed, so every property here
  holds whatever values they return.
- The source's distance test `sqrt(dx*dx + dy*dy) < r1 + r2` is written as
  `0 < r1 + r2 && dx*dx + dy*dy < (r1 + r2)^2`.
  `Collisions.OverlapIsDistanceTest` proves the two tests agree whenever the
  root really is a square root. The hit test `hypot(dx, dy) <= r` is handled
  the same way (`Interaction.HitIsDistanceTest`).
- The conjuncts `0 < r1 + r2` and `0 <= r` are needed for this agreement. A
  square root is never negative, so without them the squared forms would accept
  cases that the source's tests reject, for example a negative radius sum.
- In the source, the active ball is an object reference, and recolouring and
  dragging find it in the list with `===`. Here both the active ball and the
  target of a recolour are indices. An index past the end of the list matches
  no ball, like a reference that is not in the list.
- The canvas width and height are parameters of the wall step. The lemmas about
  the starting configuration use the 900 x 500 canvas.

## Model

| member | source | states |
|---|---|---|
| `Walls.WallAxis` | src/components/BilliardCanvas.tsx:59-78 | For one axis, after integration: a disc that crosses a wall gets velocity `-0.3 * v`. If the table is at least `2 * radius` wide, the position ends in `[radius, dim - radius]`. It is exactly `radius` after a crossing on the low side, whatever the table's size, and exactly `dim - radius` after a crossing on the high side of a table that wide. Without a crossing, position and velocity are unchanged. |
| `Walls.StepBall` | src/components/BilliardCanvas.tsx:55-78 | Radius and colour are kept. A ball that fits the table ends on it. On each axis, a crossing at `x + vx` (or `y + vy`) gives `vx' = -0.3 * vx` (or `vy'`). Without a crossing, the coordinate is exactly `x + vx` (or `y + vy`) and the velocity is unchanged. After a crossing of the low wall, the coordinate is exactly the radius. After a crossing of the high wall on a table at least `2 * radius` wide (or high), it is exactly the width (or height) minus the radius. |
| `Walls.StepAll` | src/components/BilliardCanvas.tsx:53-82 | Containment for the whole list: same length, every radius and colour kept, and if every ball fits the table then every ball ends on it. |
| `Walls.AxesIndependent` | src/components/BilliardCanvas.tsx:59-78 | The new x and vx depend only on x, vx and the radius, and the new y and vy only on y, vy and the radius. |
| `Walls.LeftWallBounce` | src/components/BilliardCanvas.tsx:59-67 | Worked example: a ball of radius 20 at x = 19 with vx = -5 ends at x = 20 with vx = 1.5, and nothing else changes. |
| `Walls.RestingBallStays` | src/components/BilliardCanvas.tsx:55-78 | A still ball on the table is a fixed point of the wall step. |
| `Walls.UpdateBallsPosition` | src/components/BilliardCanvas.tsx:53-82 | The in-place loop leaves the array equal to `StepAll` of its old contents. |
| `Collisions.OverlapIsDistanceTest` | src/components/BilliardCanvas.tsx:90-95 | For any genuine square root of the squared distance, `sqrt(d2) < r1 + r2` holds exactly when `Overlap` does. |
| `Collisions.Impulse` | src/components/BilliardCanvas.tsx:96-114 | The impulse of an overlapping pair: restitution times the relative speed, along the contact angle, scaled by ball 1's share of the summed radii. The math functions are uninterpreted. Two balls with the same velocity get a zero impulse, for any root with `sqrt(0) = 0`. |
| `Collisions.CollidePair` | src/components/BilliardCanvas.tsx:88-120 | One visit of pair (i, j). No position, radius or colour changes, and no ball other than i and j changes. A non-overlapping pair is left alone. For an overlapping pair, i loses and j gains exactly the impulse vector. In every case, i's velocity change is the negation of j's. |
| `Collisions.InnerPass` | src/components/BilliardCanvas.tsx:87-121 | The inner loop for ball i keeps every ball's position, radius and colour, and the list's length and order. |
| `Collisions.OuterPass` | src/components/BilliardCanvas.tsx:86-122 | The outer loop from ball i on keeps every ball's position, radius and colour, and the list's length and order. |
| `Collisions.Collide` | src/components/BilliardCanvas.tsx:85-124 | The whole pass changes velocities only: the length, the order, and every x, y, radius and colour are kept. |
| `Collisions.PairConservesTotal` | src/components/BilliardCanvas.tsx:116-119 | Visiting one pair keeps the summed vx and the summed vy of the list. |
| `Collisions.CollideConservesTotal` | src/components/BilliardCanvas.tsx:85-124 | The whole pass keeps the summed vx and the summed vy. |
| `Collisions.IsolatedUnchanged` | src/components/BilliardCanvas.tsx:86-95 | A ball that overlaps no other ball leaves the pass exactly as it entered. |
| `Collisions.SeparatedUnchanged` | src/components/BilliardCanvas.tsx:86-95 | If no pair overlaps, the pass returns the list unchanged. |
| `Collisions.ResolvePair` | src/components/BilliardCanvas.tsx:88-120 | The in-place update of one pair leaves the array equal to `CollidePair` of its old contents. |
| `Collisions.ResolveCollisions` | src/components/BilliardCanvas.tsx:85-124 | The nested in-place loops over i < j leave the array equal to `Collide` of its old contents. |
| `Interaction.HitIsDistanceTest` | src/components/BilliardCanvas.tsx:142-144 | For any genuine square root, `hypot(dx, dy) <= radius` holds exactly when `Hits` does. |
| `Interaction.HitTest` | src/components/BilliardCanvas.tsx:142-144 | Returns the index of the lowest-index ball whose disc contains the point: that ball is hit and no earlier ball is. It returns none exactly when no ball is hit, and every first hit is the one returned. |
| `Interaction.DoubleClick` | src/components/BilliardCanvas.tsx:136-151 | The ball list and the press point are never changed. A click that hits no ball changes no state. A click that hits a ball opens the picker with the first hit ball as target. |
| `Interaction.MouseDown` | src/components/BilliardCanvas.tsx:153-168 | The ball list and the picker flag are never changed. A press that hits no ball changes no state. A press that hits a ball makes the first hit ball active and records the press point. |
| `Interaction.SetVelocity` | src/components/BilliardCanvas.tsx:184-191 | Only ball k's velocity changes, and it becomes the given one. Layout and every other ball are kept. |
| `Interaction.DragVelocity` | src/components/BilliardCanvas.tsx:177-185 | The velocity a drag assigns: the speed is `min(force, 10)` in the direction from the press point to the pointer, with the math functions uninterpreted. A pointer back at the press point gives velocity zero, for any root with `sqrt(0) = 0`. |
| `Interaction.MouseMove` | src/components/BilliardCanvas.tsx:170-194 | Without an active ball and a press point, nothing changes. Otherwise the active ball's velocity becomes the drag velocity. All positions, radii and colours are kept, and so are every other ball and the rest of the state. |
| `Interaction.MoveOverwrites` | src/components/BilliardCanvas.tsx:184-185 | In the index model, two moves in a row leave the state the second move alone would: the assignment overwrites, it does not accumulate. The handler as written does not do this (see Findings). |
| `Interaction.MouseMoveAsWritten` | src/components/BilliardCanvas.tsx:170-194 | The move handler with the object identity it depends on. While the list still holds the active ball's own object, a move acts as `MouseMove` and detaches the drag. Once the drag is detached, a move leaves the state unchanged. |
| `Interaction.OnlyFirstMoveReachesList` | src/components/BilliardCanvas.tsx:184-190 | As written, two moves of one drag leave the list that the first move alone makes. |
| `Interaction.SecondMoveLost` | src/components/BilliardCanvas.tsx:177-190 | A concrete drag of the first starting ball: as written it keeps vx = 1 from the first move, where the second move should give vx = 5. |
| `Interaction.MouseUp` | src/components/BilliardCanvas.tsx:196-199 | Release clears the active ball and the press point, and keeps the balls, so a moving ball keeps its velocity. |
| `Interaction.Recolor` | src/components/BilliardCanvas.tsx:233-237 | Only ball k's colour changes, and it becomes the given colour. Every other field of ball k and every other ball are kept, and so is the length. |
| `Interaction.RecolorLastWins` | src/components/BilliardCanvas.tsx:233-237 | Recolouring the same ball twice gives the result of the second colour alone. |
| `Interaction.ColorChange` | src/components/BilliardCanvas.tsx:231-241 | Without a target, nothing changes. With a target, the list is recoloured at the target, the picker closes, and the target and the press point are kept. |
| `Simulation.Frame` | src/components/BilliardCanvas.tsx:43-45 | A frame keeps the length, every radius and every colour. If all balls fit the table, all are on it afterwards and still fit. |
| `Simulation.Tick` | src/components/BilliardCanvas.tsx:43-45 | The wall loop followed by the collision loop on the same array leaves it equal to `Frame` of its old contents. |
| `Simulation.Frames` | src/components/BilliardCanvas.tsx:43-49 | After n frames, the list has the same length, radii and colours. |
| `Simulation.ContainedForever` | src/components/BilliardCanvas.tsx:43-45 | If all balls fit the table, then after any positive number of frames every ball is on it. |
| `Simulation.RestingFrame` | src/components/BilliardCanvas.tsx:43-45 | Still, non-overlapping balls on the table are a fixed point of one frame. |
| `Simulation.RestingForever` | src/components/BilliardCanvas.tsx:43-45 | Still, non-overlapping balls on the table stay fixed for any number of frames. |
| `Simulation.InitialBallsStayPut` | src/components/BilliardCanvas.tsx:18-21 | The two starting balls, at (100,100) and (500,200) with radius 20 and at rest on the 900 x 500 canvas, never move, whatever the math functions return. |
| `Simulation.RecolorCommutesWithFrame` | src/components/BilliardCanvas.tsx:231-241 | Colour plays no part in the physics: recolouring before a frame gives the same list as recolouring after it. |

## Left out

- React state plumbing (`useState`, `useCallback`, `useEffect`, re-renders). The `Ui` record stands in for the state these hooks keep.
- Drawing (`draw`'s clearing and border, `drawBall`) and the `requestAnimationFrame` loop with its cancellation. These are rendering and scheduling; `Frames` stands for the repeated callback.
- Registering event listeners and converting client coordinates to canvas coordinates with `getBoundingClientRect` (lines 138-140, 155-157, 173-175, 203-217). The handlers here take canvas coordinates directly.
- The values of `sqrt`, `atan2`, `cos` and `sin`, and IEEE-754 rounding, NaN and infinities. Nothing about speeds or impulse sizes that needs those values is proved, including the drag speed bound.
- Object identity. The functions work on values, and a ball is named by its index. Aliasing between the list in React state and the `activeBall` reference is modelled only for the move handler, by `Interaction.MouseMoveAsWritten`. The handler's effect on that detached object is not modelled, because nothing reads it.
- Interaction.MouseMove — this is the corrected move handler. In this model every move of a drag reaches the ball at the active index. In the source as written, only the first move reaches the list: line 189 swaps in a spread copy, and later moves write to the detached object at lines 184-185. `Interaction.MouseMoveAsWritten` models the code as written.
- Interaction.MoveOverwrites — the lemma states overwriting for the index model. The handler as written keeps the first move's velocity instead (`Interaction.OnlyFirstMoveReachesList`).
- The impulse vector in the in-place pair update: `ResolvePair` obtains it from the `Impulse` function instead of computing `angle`, `relativeSpeed` and `impulse` in separate local variables. The arithmetic is the same.
- A recolour target that the list no longer holds. `handleColorChange` also compares with `===`. The picker opens on a double click, which stores a list element, and the wall step and the collision pass mutate the balls in place. So the target stays in the list unless a drag is still under way when the colour is confirmed. `Interaction.ColorChange` names the target by index and does not model that case.
- Closing the colour picker without confirming (`onClose`, line 253). It only sets `isModalOpen` to false. The picker component itself is UI that forwards the chosen colour and is not part of this model.

## Findings

| source | as written | input that shows it | evidently intended | confidence | as-written member | corrected member |
|---|---|---|---|---|---|---|
| src/components/BilliardCanvas.tsx:184-190 | `handleMouseMove` writes the velocity into the `activeBall` object and then replaces that object in the list with a copy (`{ ...activeBall }`), but `activeBall` is not updated to the copy. From the second move of a drag on, the write goes to an object the list no longer holds, and the `===` in the `map` matches nothing. | Press on the first starting ball at (100, 100), then move to (101, 100) and on to (105, 100): the ball keeps vx = 1 instead of vx = 5. | Every move of the drag sets the dragged ball's velocity from the current pointer position, so the last move wins. | medium, not executed | `Interaction.MouseMoveAsWritten`, `Interaction.OnlyFirstMoveReachesList`, `Interaction.SecondMoveLost` | `Interaction.MouseMove`, `Interaction.MoveOverwrites` |
