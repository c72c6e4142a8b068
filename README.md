# Painting-cost bookkeeping of the `toolbox` app, in Dafny

The `toolbox` Flask app lets a user describe houses made of rooms, rooms made
of walls, and walls that carry obstacles (windows, doors). Each wall and each
obstacle has one of eight shapes. Its area comes from one to three measured
dimensions. A wall keeps two numbers, `surface` and `original_surface`. A
recompute sets `surface` to `original_surface` minus the areas of the wall's
obstacles. Both columns are -1 when the wall is created. The wall details
form writes the area net of obstacles into `surface`. It writes the same
value into `original_surface` for one-dimension shapes only; the other
shapes leave `original_surface` as it was (-1 on a new wall; see Findings).
This project models that bookkeeping and proves what it guarantees:

- `shapes.dfy` (module `Shapes`) holds the eight shapes, their area formulas
  and the raw form values. π is an abstract positive constant.
- `wall.dfy` (module `Walls`) covers toolbox/wall.py: `to_shape`,
  `check_measurement_input`, the obstacle subtraction of `get_surface` and
  `update_surface`, the `wall_details` write, the per-wall obstacle count of
  the index view, and `get_wall`.
- `obstacle.dfy` (module `Obstacles`) covers toolbox/obstacle.py:
  `create`, `obstacle_details` (plus the wall recompute it triggers),
  `update_shape`, `delete` and `get_obstacle`.
- `room.dfy` (module `Rooms`) covers toolbox/room.py: the `get_values`
  aggregation, the `delete` cascade and `get_room`.
- `house.dfy` (module `Houses`) covers toolbox/house.py: the `delete`
  cascade, `get_house` and `get_rooms`.
- `tables.dfy` (module `Tables`) holds the four table rows and the
  `Database` class. The class has one `map` field per table, from row id to
  row. It also holds the lookup outcome (`Found`, 404, 403) and the response
  a view returns.
- `sums.dfy` (module `Sums`) defines sums over finite sets of row ids. Each
  loop over query rows (`surface -= obstacle['surface']`, `total_cost += ...`)
  picks the rows in any order. It is specified by a sum over the SET of
  matching ids. `SeqSumIsSum` proves that every row order gives the same sum.

Each view is a module-level method that takes the `Database` object `db`
and declares `modifies db`. It changes only the tables the view writes and
returns the view's `Response`. The method's postcondition gives the new
tables as a function of the old ones. Lemmas about those functions state
the properties.

The central property is `Walls.SurfaceCurrent`: a wall's `surface` equals
its `original_surface` minus its obstacle total. `Walls.UpdateSurface`,
`Obstacles.ObstacleDetails` and `Obstacles.DeleteAndRecompute` establish it
for the wall they recompute. The other writes do not preserve it:

- `Obstacles.Create` adds a pending obstacle (`Walls.PendingObstacleRaisesSurface`).
- `Obstacles.UpdateShape` resets one to pending (`Obstacles.ResetObstacleCountsAsMinusOne`).
- `Obstacles.Delete` removes one (`Obstacles.DeleteLeavesWallStale`).
- `Walls.WallDetails` writes a `surface` that need not equal `original_surface`
  minus the obstacle total (`Walls.DetailsLostOnRecompute`).

Three behaviours of the code a reader may not expect:

- The code never rejects a net surface below zero. A wall's `surface` can
  end up below 0. A pending obstacle (surface -1) raises the recomputed
  `surface` by 1. The result is above `original_surface` when the wall's
  other obstacles total less than 1.
- `original_surface` holds the gross area only for a one-dimension shape
  measured before the wall has obstacles; see Findings.
- Deleting an obstacle does not recompute its wall; see Findings.

## Model

| member | source | states |
|---|---|---|
| Shapes.Area | toolbox/wall.py:24-31 | the eight area formulas; with all dimensions positive the area is positive |
| Shapes.FormulaRelations | toolbox/wall.py:24-31 | square = rectangle(b, b); parallelogram = rectangle; triangle = half the rectangle; trapezoid = mean of two rectangles; circle = ellipse(r, r); semicircle = half the circle |
| Shapes.Arity | toolbox/wall.py:195-241 | the details views read 1 dimension for square/circle/semicircle, 2 for rectangle/parallelogram/triangle/ellipse, 3 for trapezoid |
| Shapes.Lower | toolbox/wall.py:189 | the shape name is lower-cased character by character before lookup |
| Walls.ToShape | toolbox/wall.py:40-63 | exactly the eight lower-case names select a shape, each its own; every other string gives None |
| Walls.DropdownNamesSelectShapes | toolbox/wall.py:128 | every drop-down name, lower-cased, selects a shape |
| Walls.CheckMeasurementInput | toolbox/wall.py:404-416 | a number is returned iff the input is present, numeric and > 0, and it is that input; otherwise the empty, not-a-number or not-positive message, in that order |
| Walls.DimensionsRead | toolbox/wall.py:182-184 | a details form reads as many of `dim_one`, `dim_two`, `dim_three` as the shape's arity |
| Walls.ValidatedArea | toolbox/wall.py:195-258 | an area exists iff every dimension read passed the check; it is the shape's formula on those numbers and is positive |
| Walls.ValidatedAreaOne | toolbox/wall.py:195-199 | for one-dimension shapes only `dim_one` decides the area |
| Walls.ValidatedAreaTwo | toolbox/wall.py:215-220 | for two-dimension shapes `dim_one` and `dim_two` decide; `dim_three` is never read |
| Walls.ValidatedAreaThree | toolbox/wall.py:236-242 | the trapezoid needs all three dimensions |
| Walls.WallObstacleIds | toolbox/wall.py:449-453 | the obstacles selected are exactly those whose `wall_id` is the wall |
| Walls.NoObstaclesSubtractNothing | toolbox/wall.py:455-458 | with no obstacles on the wall nothing is subtracted, so `surface` equals `original_surface` |
| Walls.ObstacleSumInsert | toolbox/wall.py:457-458 | a new obstacle changes only its own wall's total, by its own surface |
| Walls.ObstacleSumRemove | toolbox/wall.py:457-458 | removing an obstacle changes only its own wall's total, by its own surface |
| Walls.PendingObstacleRaisesSurface | toolbox/wall.py:457-458 | a pending obstacle (-1) is subtracted like any other: its wall's total drops by 1, other walls are unaffected |
| Walls.GetSurface | toolbox/wall.py:467-480 | returns the given area minus the wall's obstacle total, for any row order; changes nothing |
| Walls.Recomputed | toolbox/wall.py:455-464 | the new row: `surface + obstacle total = original_surface`; every other column is kept |
| Walls.RecomputeIdempotent | toolbox/wall.py:440-465 | recomputing twice without an obstacle change gives the same row |
| Walls.UpdateSurface | toolbox/wall.py:440-465 | wall `w_id` is recomputed and becomes current; no other wall, column or table changes; a missing wall fails and changes nothing |
| Walls.DetailsWrite | toolbox/wall.py:199-252 | the row written: `surface` is area minus obstacle total; one-dimension shapes write the same value into `original_surface`, the others leave it; room, name, paint and shape are kept |
| Walls.WallsAfterDetailsOne | toolbox/wall.py:195-211 | one-dimension shapes: when `dim_one` passes, both columns get the net area; otherwise the table is unchanged |
| Walls.WallsAfterDetailsTwo | toolbox/wall.py:215-231 | two-dimension shapes: when both dimensions pass, `surface` gets the net area; otherwise unchanged |
| Walls.WallsAfterDetailsThree | toolbox/wall.py:236-253 | trapezoid: when all three pass, `surface` gets the net area; otherwise unchanged |
| Walls.WallDetails | toolbox/wall.py:176-264 | unknown shape: error text, no write; known shape: the write above, then redirect to the wall index; obstacles, rooms and houses unchanged |
| Walls.WallsWithObstacles | toolbox/wall.py:104-108 | every obstacle's wall is among the walls with obstacles |
| Walls.WallsWithObstaclesExact | toolbox/wall.py:104-108 | a wall is among the walls with obstacles iff some obstacle row names it |
| Walls.FiberOfWall | toolbox/wall.py:104-108 | grouping obstacle rows by `wall_id` gives each wall's obstacles |
| Walls.CountsGroupsStep | toolbox/wall.py:105-108 | counting one more row opens its wall's entry at 1 or adds 1, and keeps every count right |
| Walls.CountsGroupsComplete | toolbox/wall.py:102-108 | after every row is counted, each wall with obstacles maps to its obstacle count |
| Walls.ObstaclesPerWall | toolbox/wall.py:97-108 | the dictionary has the seeded key 0 plus exactly the walls with obstacles, each mapped to its obstacle count |
| Walls.GroupCounts | toolbox/wall.py:102-108 | the per-wall group sizes are the per-wall obstacle counts |
| Walls.ObstacleCountsAddUp | toolbox/wall.py:102-108 | when no obstacle names wall 0, the counts other than key 0 add up to the number of obstacles |
| Walls.GetWall | toolbox/wall.py:418-438 | found iff a wall with that id is in that room, and it is that row; otherwise 404; never 403 |
| Walls.DetailsLostOnRecompute | toolbox/wall.py:206-230 | as written, the next recompute discards a two- or three-dimension area, and subtracts old obstacles twice for one-dimension shapes |
| Walls.RectangleWallLosesItsArea | toolbox/wall.py:215-231 | new wall, 4 by 3 rectangle, then a circular obstacle of radius 1: the recompute gives -1 - π, not 12 - π |
| Walls.DetailsWriteIntended | toolbox/wall.py:199-252 | corrected write: `original_surface` is the gross area, `surface` the gross area minus the obstacle total |
| Walls.IntendedDetailsSurviveRecompute | toolbox/wall.py:440-465 | with the corrected write, recomputing at once is a no-op, and after any obstacle change it gives the gross area minus the new total |
| Obstacles.GetObstacle | toolbox/obstacle.py:378-398 | found iff an obstacle with that id is on that wall, and it is that row; otherwise 404; never 403 |
| Obstacles.CreateError | toolbox/obstacle.py:119-127 | no error iff name and shape are both given; a missing shape's message overrides a missing name's |
| Obstacles.Create | toolbox/obstacle.py:103-152 | on a form error nothing is inserted; otherwise exactly one row (wall, name, shape, -1) is added and the redirect names a pending obstacle (the new one when no other is pending) |
| Obstacles.ObstaclesAfterDetails | toolbox/obstacle.py:175-234 | only obstacle `o_id` can change, and only its surface, which becomes its own area (no subtraction) when every dimension passed |
| Obstacles.ObstaclesAfterDetailsOne | toolbox/obstacle.py:175-192 | one-dimension shapes: `dim_one` alone decides the write |
| Obstacles.ObstaclesAfterDetailsTwo | toolbox/obstacle.py:194-212 | two-dimension shapes: `dim_one` and `dim_two` decide the write |
| Obstacles.ObstaclesAfterDetailsThree | toolbox/obstacle.py:214-233 | trapezoid: all three dimensions decide the write |
| Obstacles.ObstacleDetails | toolbox/obstacle.py:154-243 | unknown shape: error text, nothing written; known shape: the obstacle write, then wall `w_id` recomputed (even after a failed check) and current; a missing wall fails after the obstacle write |
| Obstacles.UpdateShape | toolbox/obstacle.py:307-358 | an empty shape is a form error with no write; otherwise obstacle `o_id` gets the new shape and surface -1; walls are not recomputed |
| Obstacles.ObstacleSumReplace | toolbox/obstacle.py:186-190 | changing one obstacle's surface shifts its wall's total by the difference and no other wall's |
| Obstacles.ResetObstacleCountsAsMinusOne | toolbox/obstacle.py:347-351 | after a shape reset the obstacle counts as area -1 in its wall's total |
| Obstacles.Delete | toolbox/obstacle.py:293-305 | 404 and no change unless the obstacle is on that wall; otherwise only that row is removed; the wall table is untouched |
| Obstacles.DeleteLeavesWallStale | toolbox/obstacle.py:302-303 | as written, deleting an obstacle with a non-zero surface leaves a current wall no longer current |
| Obstacles.DeleteKeepsObstacleSubtracted | toolbox/obstacle.py:302-303 | a new wall measured as a square of side 2 reads 4; after a radius-1 obstacle and a recompute it reads 4 - π, is current, and is no longer current once the obstacle is deleted, still reading 4 - π |
| Obstacles.DeleteAndRecompute | toolbox/obstacle.py:293-305 | corrected delete: removes the obstacle and recomputes its wall, whose new row is the old one with `surface` = `original_surface` minus the remaining obstacles, and is current; every other wall, and the wall table's keys, unchanged; 404 or a missing wall as in the source |
| Obstacles.DeleteAndRecomputeRestoresSquare | toolbox/obstacle.py:293-305 | on the square-of-side-2 input, the corrected delete brings the wall back to 4 |
| Sums.SeqSumIsSum | toolbox/wall.py:457-458 | summing the rows in any order, each once, gives the set sum |
| Sums.SeqSumPermutation | toolbox/wall.py:477-478 | two orders of the same rows give the same total |
| Sums.GroupSumsStep | toolbox/room.py:196-200 | adding a wall's quantity to its paint's entry, or opening the entry, keeps every per-paint sum right |
| Sums.SumPartition | toolbox/room.py:196-200 | summing the per-tag group sums gives the sum over all ids |
| Rooms.RoomWallIds | toolbox/room.py:191 | the walls counted for a room are exactly those whose `room_id` is the room |
| Rooms.SummaryStep | toolbox/room.py:191-200 | counting one more wall of the room adds 1 to the count, its cost to the total, and its quantity to its paint's entry |
| Rooms.RoomSummary | toolbox/room.py:186-200 | one room's count, total cost and per-paint quantities are those of exactly its walls |
| Rooms.GetValues | toolbox/room.py:178-206 | exactly one entry per input room, keyed by room id, each summarising that room's walls; reads only |
| Rooms.EmptyRoomSummary | toolbox/room.py:187-203 | a room with no walls gets `(0, 0, {})` |
| Rooms.PaintValsAddUp | toolbox/room.py:196-200 | the per-paint quantities add up to the room's total quantity |
| Rooms.GetRoom | toolbox/room.py:209-230 | found iff the room exists, belongs to that house and the house exists, and it is that row; otherwise 404; never 403 |
| Rooms.WallsOutside | toolbox/room.py:165 | the walls kept are exactly those not in the deleted rooms, unchanged |
| Rooms.WallsOutsideUnion | toolbox/house.py:143-149 | deleting the walls of one room after another equals deleting the walls of both at once |
| Rooms.Delete | toolbox/room.py:153-172 | 404 and no change unless the room is in that house; otherwise its walls and then the room are removed; other rooms and walls, houses and obstacles unchanged |
| Houses.GetHouse | toolbox/house.py:180-208 | found iff the house exists and its `author_id` is the user's id, and it is that row; otherwise 404; never 403 |
| Houses.GetRooms | toolbox/house.py:210-218 | exactly the rooms whose `house_id` is the house, unchanged |
| Houses.Delete | toolbox/house.py:132-156 | 404 before any deletion unless `get_house` finds the house; otherwise the house, its rooms and their walls are removed; obstacles are never touched |
| Houses.DeleteLeavesNoOrphans | toolbox/house.py:143-153 | afterwards no room of the house and no wall of its rooms remains; every other room and wall is kept as it was |

## Left out

- Flask plumbing: routing, templates, `flash`, `url_for`, the GET branches
  and the `login_required` check. A view is a method taking the values it
  reads from the URL and the form, and returning a `Response`.
- SQLite: connections, commits and SQL text. The database is one map per
  table.
- Row ids: the id SQLite gives a new obstacle is a parameter of
  `Obstacles.Create`. The only requirement is that it is not in use. The
  table schema is not part of this model.
- The `WHERE surface = -1` lookup after an insert depends on row order.
  `Obstacles.Create` models it as "some pending row".
- Floating point: areas are `real` and π is an abstract positive constant.
  Rounding is not modelled. Overflow is not modelled either, so
  Walls.WallDetails and Obstacles.ObstacleDetails miss two cases. Python's
  float `pow` raises `OverflowError` on overflow. So a square, circle or
  semicircle with a side above about 1.34e154 ends `wall_details` and
  `obstacle_details` in a server error before any write. `obstacle_details`
  then also skips the wall recompute. The two- and three-dimension formulas
  use `*`, which gives inf instead, and inf is written. The model's reals
  neither raise nor produce inf.
- Parsing: `float(input)` is replaced by the three-way `RawInput` (missing,
  not a number, a number).
- Walls.CheckMeasurementInput: Python's `float()` also accepts "nan", "inf"
  and overflowing text such as "1e400", which becomes inf. For nan,
  `input <= 0` is false, so the check returns nan; inf is returned as well.
  Both pass the `isinstance(..., float)` test, and their area (nan or inf)
  is written to the row. A `RawInput` number is a real, so the model cannot
  express these values, and its "returned only when > 0" is stronger than
  the source's check.
- Shapes.Lower: lower-cases ASCII only. Python's `str.lower()` also folds
  non-ASCII letters, but no shape name contains one.
- The `Shape.__call__` override of the enum is not modelled. The views call
  the area formulas directly.
- Obstacles.Create: an absent `shape` field and an empty one are both the
  empty string. An absent `name` field makes the source raise `KeyError`;
  that is not modelled, so `name` is always a string.
- Rooms.GetValues: `wall.get_values()`, which would give each wall's
  (cost, quantity) pair, is not defined in toolbox/wall.py. The pairs are a
  parameter. The requirement that they cover the walls of the requested
  rooms stands for the `KeyError` a missing pair would raise.
- house.py `get_values` is not modelled. It calls `room.get_values` for
  each house, throws the result away and returns nothing.
- Houses.GetHouse: the join on the user table is taken to succeed, because
  the logged-in user's row exists.
- Walls.WallDetails and Obstacles.ObstacleDetails: the code sets its local
  `error` variable but never shows it. On a failed check, the model only
  captures that nothing is written.
- The other views (wall, room and house create, rename, wall `update_shape`,
  wall `delete`, the index listings), authentication, the paint, calculator,
  blog and weather modules, and the tests are not part of this model.
- The `Database` constructor stands for an empty database. Schema setup is
  not modelled.

## Findings

| source | as written | input that shows it | evidently intended | confidence | as-written member | corrected member |
|---|---|---|---|---|---|---|
| toolbox/wall.py:206-230 | `wall_details` writes the area net of obstacles into `surface`. It stores the gross area only for a one-dimension shape measured before the wall has obstacles. Two- and three-dimension shapes leave `original_surface` as it was (-1 on a new wall). One-dimension shapes store the net value there. | A new wall measured as a 4 by 3 rectangle, then given a circular obstacle of radius 1: `update_surface` sets the wall to -1 - π. | `original_surface` holds the gross area (12), so the wall reads 12 - π. | not executed | Walls.RectangleWallLosesItsArea | Walls.DetailsWriteIntended |
| toolbox/obstacle.py:302-303 | `delete` removes the obstacle row and does not recompute the wall. | A new wall measured as a square of side 2 reads 4. After a circular obstacle of radius 1 it reads 4 - π, and after that obstacle is deleted it still reads 4 - π. | The wall is recomputed and reads 4 again. | not executed | Obstacles.DeleteKeepsObstacleSubtracted | Obstacles.DeleteAndRecompute |
