/**
 * toolbox/obstacle.py: the obstacle ledger. Obstacles are created with the
 * pending surface -1, measured by the details form (which then recomputes the
 * wall through `update_surface`), reset to pending by a shape change, and
 * deleted.
 *
 * The module's `Shape` enum, `to_shape` and `check_measurement_input` are
 * copies of those in toolbox/wall.py and are modelled by the same functions,
 * `Walls.ToShape`, `Shapes.Area` and `Walls.CheckMeasurementInput`.
 */
module Obstacles {

  import opened Sums
  import opened Shapes
  import opened Tables
  import opened Walls

  const NameRequired: string := "A name is required."
  const ShapeRequired: string := "A shape must be chosen."

  /** `get_obstacle`: obstacle `oId` on wall `wId`, or 404. */
  function GetObstacle(obstacles: map<int, Obstacle>, oId: int, wId: int, checkAuthor: bool): (r: Lookup<Obstacle>)
    ensures r.Found? <==> oId in obstacles && obstacles[oId].wallId == wId
    ensures r.Found? ==> r.row == obstacles[oId]
    ensures !r.Forbidden?
  {
    var row := if oId in obstacles && obstacles[oId].wallId == wId then Some(obstacles[oId]) else None;
    if row.None? then NotFound
    else if checkAuthor && row.value.wallId != wId then Forbidden
    else Found(row.value)
  }

  /**
   * The form error `create` shows, if any: the shape check runs after the
   * name check and overwrites its message.
   */
  function CreateError(name: string, shape: string): (r: Option<string>)
    ensures r.None? <==> name != "" && shape != ""
    ensures shape == "" ==> r == Some(ShapeRequired)
    ensures shape != "" && name == "" ==> r == Some(NameRequired)
  {
    var error := if name == "" then Some(NameRequired) else None;
    if shape == "" then Some(ShapeRequired) else error
  }

  /**
   * `create` (POST): inserts obstacle `id` (the fresh row id the database
   * assigns) on wall `wId` with the pending surface, then redirects to the
   * details form of a pending obstacle, the one the query `WHERE surface = -1`
   * returns first (any pending row; it is the new one when no other obstacle
   * is pending).
   */
  method Create(db: Database, wId: int, name: string, shape: string, id: int) returns (response: Response)
    requires id !in db.obstacles
    modifies db
    ensures CreateError(name, shape).Some? ==>
      response == FormError(CreateError(name, shape).value) && db.obstacles == old(db.obstacles)
    ensures CreateError(name, shape).None? ==>
      && db.obstacles == old(db.obstacles)[id := Obstacle(wId, name, shape, Pending)]
      && response.Redirect? && response.page.ObstacleDetailsForm?
      && response.page.wallId == wId && response.page.shape == shape
      && response.page.obstacleId in db.obstacles
      && db.obstacles[response.page.obstacleId].surface == Pending
      && ((forall k :: k in old(db.obstacles) ==> old(db.obstacles)[k].surface != Pending)
            ==> response.page.obstacleId == id)
    ensures db.houses == old(db.houses) && db.rooms == old(db.rooms) && db.walls == old(db.walls)
  {
    var error := CreateError(name, shape);
    if error.Some? {
      return FormError(error.value);
    }
    db.obstacles := db.obstacles[id := Obstacle(wId, name, shape, Pending)];
    assert id in db.obstacles && db.obstacles[id].surface == Pending;
    var pending :| pending in db.obstacles && db.obstacles[pending].surface == Pending;
    response := Redirect(ObstacleDetailsForm(wId, pending, shape));
  }

  /** The obstacle table after the details form: the obstacle's own area, when every dimension passed. */
  function ObstaclesAfterDetails(obstacles: map<int, Obstacle>, oId: int,
                                 s: Shape, dimOne: RawInput, dimTwo: RawInput, dimThree: RawInput): (r: map<int, Obstacle>)
    ensures r.Keys == obstacles.Keys
    ensures forall k :: k in r && k != oId ==> r[k] == obstacles[k]
    ensures oId in r ==> r[oId] == obstacles[oId].(surface := r[oId].surface)
    ensures oId in r ==>
      r[oId].surface == (if ValidatedArea(s, dimOne, dimTwo, dimThree).Some?
                         then ValidatedArea(s, dimOne, dimTwo, dimThree).value
                         else obstacles[oId].surface)
  {
    var area := ValidatedArea(s, dimOne, dimTwo, dimThree);
    if area.Some? && oId in obstacles then obstacles[oId := obstacles[oId].(surface := area.value)]
    else obstacles
  }

  /** What `obstacle_details` writes for a one-dimension shape. */
  lemma ObstaclesAfterDetailsOne(obstacles: map<int, Obstacle>, oId: int,
                                 s: Shape, dimOne: RawInput, dimTwo: RawInput, dimThree: RawInput)
    requires Arity(s) == 1
    ensures ObstaclesAfterDetails(obstacles, oId, s, dimOne, dimTwo, dimThree)
         == if CheckMeasurementInput(dimOne).Measurement? && oId in obstacles
            then obstacles[oId := obstacles[oId].(surface := Area(s, [Value(dimOne)]))]
            else obstacles
  {
    ValidatedAreaOne(s, dimOne, dimTwo, dimThree);
  }

  /** What `obstacle_details` writes for a two-dimension shape. */
  lemma ObstaclesAfterDetailsTwo(obstacles: map<int, Obstacle>, oId: int,
                                 s: Shape, dimOne: RawInput, dimTwo: RawInput, dimThree: RawInput)
    requires Arity(s) == 2
    ensures ObstaclesAfterDetails(obstacles, oId, s, dimOne, dimTwo, dimThree)
         == if CheckMeasurementInput(dimOne).Measurement? && CheckMeasurementInput(dimTwo).Measurement? && oId in obstacles
            then obstacles[oId := obstacles[oId].(surface := Area(s, [Value(dimOne), Value(dimTwo)]))]
            else obstacles
  {
    ValidatedAreaTwo(s, dimOne, dimTwo, dimThree);
  }

  /** What `obstacle_details` writes for the trapezoid. */
  lemma ObstaclesAfterDetailsThree(obstacles: map<int, Obstacle>, oId: int,
                                   s: Shape, dimOne: RawInput, dimTwo: RawInput, dimThree: RawInput)
    requires Arity(s) == 3
    ensures ObstaclesAfterDetails(obstacles, oId, s, dimOne, dimTwo, dimThree)
         == if && CheckMeasurementInput(dimOne).Measurement? && CheckMeasurementInput(dimTwo).Measurement?
               && CheckMeasurementInput(dimThree).Measurement? && oId in obstacles
            then obstacles[oId := obstacles[oId].(surface := Area(s, [Value(dimOne), Value(dimTwo), Value(dimThree)]))]
            else obstacles
  {
    ValidatedAreaThree(s, dimOne, dimTwo, dimThree);
  }

  /**
   * `obstacle_details` (POST): stores obstacle `oId`'s own area when every
   * dimension it reads passes the check, then recomputes wall `wId`, also
   * after a failed check. An unknown shape returns the error text before
   * either write. A missing wall makes `update_surface` fail after the
   * obstacle write has been committed.
   */
  method ObstacleDetails(db: Database, wId: int, oId: int, obstacleShape: string,
                         dimOne: RawInput, dimTwo: RawInput, dimThree: RawInput) returns (response: Response)
    modifies db
    ensures ToShape(Lower(obstacleShape)).None? ==>
      response == Text(ShapeNotFound) && db.obstacles == old(db.obstacles) && db.walls == old(db.walls)
    ensures ToShape(Lower(obstacleShape)).Some? ==>
      && db.obstacles == ObstaclesAfterDetails(old(db.obstacles), oId, ToShape(Lower(obstacleShape)).value,
                                               dimOne, dimTwo, dimThree)
      && (wId in old(db.walls) ==>
            && response == Redirect(ObstacleIndex(wId))
            && db.walls == old(db.walls)[wId := Recomputed(old(db.walls)[wId], ObstacleSum(db.obstacles, wId))]
            && SurfaceCurrent(db.walls, db.obstacles, wId))
      && (wId !in old(db.walls) ==> response == ServerError && db.walls == old(db.walls))
    ensures db.houses == old(db.houses) && db.rooms == old(db.rooms)
  {
    var shape := ToShape(Lower(obstacleShape));
    if shape.None? {
      return Text(ShapeNotFound);
    }
    var s := shape.value;
    if Arity(s) == 1 {
      ObstaclesAfterDetailsOne(db.obstacles, oId, s, dimOne, dimTwo, dimThree);
      var first := CheckMeasurementInput(dimOne);
      if first.Measurement? {
        var surface := Area(s, [first.value]);
        if oId in db.obstacles {
          db.obstacles := db.obstacles[oId := db.obstacles[oId].(surface := surface)];
        }
      }
    } else if Arity(s) == 2 {
      ObstaclesAfterDetailsTwo(db.obstacles, oId, s, dimOne, dimTwo, dimThree);
      var first := CheckMeasurementInput(dimOne);
      var second := CheckMeasurementInput(dimTwo);
      if first.Measurement? && second.Measurement? {
        var surface := Area(s, [first.value, second.value]);
        if oId in db.obstacles {
          db.obstacles := db.obstacles[oId := db.obstacles[oId].(surface := surface)];
        }
      }
    } else {
      ObstaclesAfterDetailsThree(db.obstacles, oId, s, dimOne, dimTwo, dimThree);
      var first := CheckMeasurementInput(dimOne);
      var second := CheckMeasurementInput(dimTwo);
      var third := CheckMeasurementInput(dimThree);
      if first.Measurement? && second.Measurement? && third.Measurement? {
        var surface := Area(s, [first.value, second.value, third.value]);
        if oId in db.obstacles {
          db.obstacles := db.obstacles[oId := db.obstacles[oId].(surface := surface)];
        }
      }
    }
    var found := UpdateSurface(db, wId);
    if !found {
      return ServerError;
    }
    response := Redirect(ObstacleIndex(wId));
  }

  /**
   * `update_shape` (POST): an empty shape is a form error; otherwise obstacle
   * `oId` gets the new shape and the pending surface, and the details form
   * follows. The wall is not recomputed here.
   */
  method UpdateShape(db: Database, wId: int, oId: int, shape: string) returns (response: Response)
    modifies db
    ensures shape == "" ==> response == FormError(ShapeRequired) && db.obstacles == old(db.obstacles)
    ensures shape != "" ==>
      && response == Redirect(ObstacleDetailsForm(wId, oId, shape))
      && db.obstacles == if oId in old(db.obstacles)
           then old(db.obstacles)[oId := old(db.obstacles)[oId].(surface := Pending, shape := shape)]
           else old(db.obstacles)
    ensures db.houses == old(db.houses) && db.rooms == old(db.rooms) && db.walls == old(db.walls)
  {
    if shape == "" {
      return FormError(ShapeRequired);
    }
    if oId in db.obstacles {
      db.obstacles := db.obstacles[oId := db.obstacles[oId].(surface := Pending, shape := shape)];
    }
    response := Redirect(ObstacleDetailsForm(wId, oId, shape));
  }

  /**
   * Changing one obstacle's surface changes its wall's obstacle total by the
   * difference and leaves every other wall's total alone.
   */
  lemma ObstacleSumReplace(obstacles: map<int, Obstacle>, k: int, surface: real, w: int)
    requires k in obstacles
    ensures ObstacleSum(obstacles[k := obstacles[k].(surface := surface)], w)
         == ObstacleSum(obstacles, w)
            + (if obstacles[k].wallId == w then surface - obstacles[k].surface else 0.0)
  {
    var rest := obstacles - {k};
    assert obstacles[k := obstacles[k].(surface := surface)] == rest[k := obstacles[k].(surface := surface)];
    ObstacleSumInsert(rest, k, obstacles[k].(surface := surface), w);
    ObstacleSumRemove(obstacles, k, w);
  }

  /**
   * Resetting an obstacle to pending, as `update_shape` does, makes its
   * wall's next recompute treat it as an obstacle of area -1.
   */
  lemma ResetObstacleCountsAsMinusOne(obstacles: map<int, Obstacle>, k: int, shape: string)
    requires k in obstacles
    ensures ObstacleSum(obstacles[k := obstacles[k].(surface := Pending, shape := shape)], obstacles[k].wallId)
         == ObstacleSum(obstacles, obstacles[k].wallId) - obstacles[k].surface - 1.0
  {
    assert obstacles[k].(surface := Pending, shape := shape) == obstacles[k].(shape := shape).(surface := Pending);
    var renamed := obstacles[k := obstacles[k].(shape := shape)];
    assert Surfaces(renamed) == Surfaces(obstacles);
    assert WallObstacleIds(renamed, obstacles[k].wallId) == WallObstacleIds(obstacles, obstacles[k].wallId);
    ObstacleSumReplace(renamed, k, Pending, obstacles[k].wallId);
    assert renamed[k := renamed[k].(surface := Pending)] == obstacles[k := obstacles[k].(surface := Pending, shape := shape)];
  }

  /**
   * `delete`: removes obstacle `oId` after `get_obstacle` has found it on wall
   * `wId`; aborts with 404 and changes nothing otherwise. The wall's stored
   * surface is left as it was.
   */
  method Delete(db: Database, wId: int, oId: int) returns (response: Response)
    modifies db
    ensures GetObstacle(old(db.obstacles), oId, wId, true).NotFound? ==>
      response == Abort(404) && db.obstacles == old(db.obstacles)
    ensures GetObstacle(old(db.obstacles), oId, wId, true).Found? ==>
      response == Redirect(ObstacleIndex(wId)) && db.obstacles == old(db.obstacles) - {oId}
    ensures db.houses == old(db.houses) && db.rooms == old(db.rooms) && db.walls == old(db.walls)
  {
    var obstacle := GetObstacle(db.obstacles, oId, wId, true);
    if !obstacle.Found? {
      return Abort(404);
    }
    db.obstacles := db.obstacles - {oId};
    response := Redirect(ObstacleIndex(wId));
  }

  // Finding: deleting an obstacle leaves its wall's surface stale.

  /**
   * As written, a wall whose surface was current stops being current once
   * one of its obstacles with a non-zero surface is deleted: the obstacle's
   * area stays subtracted.
   */
  lemma DeleteLeavesWallStale(walls: map<int, Wall>, obstacles: map<int, Obstacle>, oId: int)
    requires oId in obstacles && obstacles[oId].surface != 0.0
    requires SurfaceCurrent(walls, obstacles, obstacles[oId].wallId)
    ensures !SurfaceCurrent(walls, obstacles - {oId}, obstacles[oId].wallId)
  {
    ObstacleSumRemove(obstacles, oId, obstacles[oId].wallId);
  }

  /**
   * The input that shows it: a new wall (both columns -1) measured as a
   * square of side 2 before it has obstacles reads 4 in both columns. A
   * circular obstacle of radius 1 is then measured and the wall recomputed:
   * it reads 4 - π. After the obstacle is deleted it still reads 4 - π
   * instead of 4.
   */
  lemma DeleteKeepsObstacleSubtracted(w: Wall, obstacle: Obstacle)
    requires w.surface == Pending && w.originalSurface == Pending
    requires obstacle.wallId == 7 && obstacle.surface == Area(Circle, [1.0])
    ensures var measured := DetailsWrite(w, Square, Area(Square, [2.0]), ObstacleSum(map[], 7));
      var wall := Recomputed(measured, ObstacleSum(map[1 := obstacle], 7));
      && measured.surface == 4.0 && measured.originalSurface == 4.0
      && wall.surface == 4.0 - Pi
      && SurfaceCurrent(map[7 := wall], map[1 := obstacle], 7)
      && !SurfaceCurrent(map[7 := wall], map[1 := obstacle] - {1}, 7)
  {
    NoObstaclesSubtractNothing(map[], 7);
    var obstacles := map[1 := obstacle];
    assert WallObstacleIds(obstacles, 7) == {1};
    assert Sum(Surfaces(obstacles), {1}) == Surfaces(obstacles)[1] + Sum(Surfaces(obstacles), {}) by {
      SumRemove(Surfaces(obstacles), {1}, 1);
      assert {1} - {1} == {};
    }
    var measured := DetailsWrite(w, Square, Area(Square, [2.0]), ObstacleSum(map[], 7));
    var wall := Recomputed(measured, ObstacleSum(obstacles, 7));
    DeleteLeavesWallStale(map[7 := wall], obstacles, 1);
  }

  /**
   * On the same input the intended delete restores the wall: recomputing it
   * after the obstacle is gone gives 4 again.
   */
  lemma DeleteAndRecomputeRestoresSquare(w: Wall, obstacle: Obstacle)
    requires w.surface == Pending && w.originalSurface == Pending
    requires obstacle.wallId == 7 && obstacle.surface == Area(Circle, [1.0])
    ensures var measured := DetailsWrite(w, Square, Area(Square, [2.0]), ObstacleSum(map[], 7));
      var wall := Recomputed(measured, ObstacleSum(map[1 := obstacle], 7));
      Recomputed(wall, ObstacleSum(map[1 := obstacle] - {1}, 7)).surface == 4.0
  {
    NoObstaclesSubtractNothing(map[], 7);
    assert map[1 := obstacle] - {1} == map[];
  }

  /**
   * The intended delete: remove the obstacle, then recompute its wall as
   * `obstacle_details` does, so the wall's surface is current afterwards.
   */
  method DeleteAndRecompute(db: Database, wId: int, oId: int) returns (response: Response)
    modifies db
    ensures GetObstacle(old(db.obstacles), oId, wId, true).NotFound? ==>
      response == Abort(404) && db.obstacles == old(db.obstacles) && db.walls == old(db.walls)
    ensures GetObstacle(old(db.obstacles), oId, wId, true).Found? ==>
      && db.obstacles == old(db.obstacles) - {oId}
      && (wId in old(db.walls) ==>
            && response == Redirect(ObstacleIndex(wId))
            && db.walls == old(db.walls)[wId := Recomputed(old(db.walls)[wId], ObstacleSum(db.obstacles, wId))]
            && SurfaceCurrent(db.walls, db.obstacles, wId))
      && (wId !in old(db.walls) ==> response == ServerError && db.walls == old(db.walls))
    ensures forall w :: w in old(db.walls) && w != wId ==> w in db.walls && db.walls[w] == old(db.walls)[w]
    ensures db.houses == old(db.houses) && db.rooms == old(db.rooms)
  {
    response := Delete(db, wId, oId);
    if response.Abort? {
      return;
    }
    var found := UpdateSurface(db, wId);
    if !found {
      return ServerError;
    }
  }
}
