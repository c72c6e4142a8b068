/**
 * toolbox/wall.py: the shape lookup and measurement check, the wall's net
 * surface bookkeeping (`get_surface`, `update_surface`, `wall_details`), the
 * per-wall obstacle count of the index view, and `get_wall`.
 */
module Walls {

  import opened Sums
  import opened Shapes
  import opened Tables

  /** The text `wall_details` and `obstacle_details` return for an unknown shape. */
  const ShapeNotFound: string := "Error: Shape Not Found"

  /** `Shape.to_shape`: the shape a lower-case name selects, if any. */
  function ToShape(name: string): (r: Option<Shape>)
    ensures forall s :: r == Some(s) <==> name == ShapeName(s)
  {
    match name
    case "square" => Some(Square)
    case "rectangle" => Some(Rectangle)
    case "parallelogram" => Some(Parallelogram)
    case "trapezoid" => Some(Trapezoid)
    case "triangle" => Some(Triangle)
    case "ellipse" => Some(Ellipse)
    case "circle" => Some(Circle)
    case "semicircle" => Some(Semicircle)
    case _ => None
  }

  /** Every name in the drop-down menus, lower-cased as the details views do, selects its shape. */
  lemma DropdownNamesSelectShapes()
    ensures forall i :: 0 <= i < |DropdownNames| ==> ToShape(Lower(DropdownNames[i])).Some?
  {
    assert Lower("Square") == "square";
    assert Lower("Rectangle") == "rectangle";
    assert Lower("Parallelogram") == "parallelogram";
    assert Lower("Trapezoid") == "trapezoid";
    assert Lower("Triangle") == "triangle";
    assert Lower("Ellipse") == "ellipse";
    assert Lower("Circle") == "circle";
    assert Lower("Semicircle") == "semicircle";
  }

  /** `check_measurement_input`: the positive number a form value holds, or the message to show. */
  function CheckMeasurementInput(input: RawInput): (r: Checked)
    ensures r.Measurement? <==> input.Num? && input.value > 0.0
    ensures r.Measurement? ==> r.value == input.value && r.value > 0.0
    ensures input.Missing? ==> r == Rejected(EmptyMessage)
    ensures input.NotNumber? ==> r == Rejected(NotNumberMessage)
    ensures input.Num? && input.value <= 0.0 ==> r == Rejected(NotPositiveMessage)
  {
    match input
    case Missing => Rejected(EmptyMessage)
    case NotNumber => Rejected(NotNumberMessage)
    case Num(x) => if x <= 0.0 then Rejected(NotPositiveMessage) else Measurement(x)
  }

  /** The form values a details view reads for a shape: `dim_one` up to its arity. */
  function DimensionsRead(s: Shape, dimOne: RawInput, dimTwo: RawInput, dimThree: RawInput): (ds: seq<RawInput>)
    ensures |ds| == Arity(s)
  {
    [dimOne, dimTwo, dimThree][..Arity(s)]
  }

  /** The number a form value holds (0 when it holds none; never read then). */
  function Value(input: RawInput): real
  {
    if input.Num? then input.value else 0.0
  }

  /** The numbers a sequence of accepted form values holds. */
  function Numbers(ds: seq<RawInput>): (xs: seq<real>)
    ensures |xs| == |ds|
    ensures forall i :: 0 <= i < |ds| ==> xs[i] == Value(ds[i])
  {
    seq(|ds|, i requires 0 <= i < |ds| => Value(ds[i]))
  }

  /**
   * The area a details view computes for a shape: present when every
   * dimension it reads passes `check_measurement_input`, absent otherwise.
   */
  function ValidatedArea(s: Shape, dimOne: RawInput, dimTwo: RawInput, dimThree: RawInput): (r: Option<real>)
    ensures var ds := DimensionsRead(s, dimOne, dimTwo, dimThree);
      && (r.Some? <==> forall i :: 0 <= i < |ds| ==> ds[i].Num? && ds[i].value > 0.0)
      && (r.Some? ==> r.value == Area(s, Numbers(ds)) && r.value > 0.0)
  {
    var ds := DimensionsRead(s, dimOne, dimTwo, dimThree);
    if forall i :: 0 <= i < |ds| ==> CheckMeasurementInput(ds[i]).Measurement? then
      Some(Area(s, Numbers(ds)))
    else
      None
  }

  /** What `ValidatedArea` is for the one-dimension shapes: `dim_one` alone decides. */
  lemma ValidatedAreaOne(s: Shape, dimOne: RawInput, dimTwo: RawInput, dimThree: RawInput)
    requires Arity(s) == 1
    ensures ValidatedArea(s, dimOne, dimTwo, dimThree)
         == if CheckMeasurementInput(dimOne).Measurement? then Some(Area(s, [Value(dimOne)])) else None
  {
    assert DimensionsRead(s, dimOne, dimTwo, dimThree) == [dimOne];
    assert Numbers([dimOne]) == [Value(dimOne)];
  }

  /** What `ValidatedArea` is for the two-dimension shapes: `dim_three` is never read. */
  lemma ValidatedAreaTwo(s: Shape, dimOne: RawInput, dimTwo: RawInput, dimThree: RawInput)
    requires Arity(s) == 2
    ensures ValidatedArea(s, dimOne, dimTwo, dimThree)
         == if CheckMeasurementInput(dimOne).Measurement? && CheckMeasurementInput(dimTwo).Measurement?
            then Some(Area(s, [Value(dimOne), Value(dimTwo)])) else None
  {
    var ds := DimensionsRead(s, dimOne, dimTwo, dimThree);
    assert ds == [dimOne, dimTwo];
    assert Numbers(ds) == [Value(dimOne), Value(dimTwo)];
  }

  /** What `ValidatedArea` is for the trapezoid: all three dimensions are read. */
  lemma ValidatedAreaThree(s: Shape, dimOne: RawInput, dimTwo: RawInput, dimThree: RawInput)
    requires Arity(s) == 3
    ensures ValidatedArea(s, dimOne, dimTwo, dimThree)
         == if CheckMeasurementInput(dimOne).Measurement? && CheckMeasurementInput(dimTwo).Measurement?
               && CheckMeasurementInput(dimThree).Measurement?
            then Some(Area(s, [Value(dimOne), Value(dimTwo), Value(dimThree)])) else None
  {
    var ds := DimensionsRead(s, dimOne, dimTwo, dimThree);
    assert ds == [dimOne, dimTwo, dimThree];
    assert Numbers(ds) == [Value(dimOne), Value(dimTwo), Value(dimThree)];
  }

  /** The ids of the obstacles on wall `w`: `SELECT ... FROM obstacle WHERE wall_id = ?`. */
  function WallObstacleIds(obstacles: map<int, Obstacle>, w: int): (ids: set<int>)
    ensures ids <= obstacles.Keys
    ensures forall k :: k in ids <==> k in obstacles && obstacles[k].wallId == w
  {
    set k | k in obstacles && obstacles[k].wallId == w
  }

  /** The `surface` column of the obstacle table. */
  function Surfaces(obstacles: map<int, Obstacle>): (m: map<int, real>)
    ensures m.Keys == obstacles.Keys
    ensures forall k :: k in m ==> m[k] == obstacles[k].surface
  {
    map k | k in obstacles :: obstacles[k].surface
  }

  /** The total of the `surface` column over the obstacles on wall `w`. */
  ghost function ObstacleSum(obstacles: map<int, Obstacle>, w: int): real
  {
    Sum(Surfaces(obstacles), WallObstacleIds(obstacles, w))
  }

  /** A wall without obstacles subtracts nothing. */
  lemma NoObstaclesSubtractNothing(obstacles: map<int, Obstacle>, w: int)
    requires forall k :: k in obstacles ==> obstacles[k].wallId != w
    ensures ObstacleSum(obstacles, w) == 0.0
  {
    var ids := WallObstacleIds(obstacles, w);
    if ids != {} {
      HasElement(ids);
      assert false;
    }
  }

  /** Inserting an obstacle changes only its own wall's total, by its own surface. */
  lemma ObstacleSumInsert(obstacles: map<int, Obstacle>, k: int, o: Obstacle, w: int)
    requires k !in obstacles
    ensures ObstacleSum(obstacles[k := o], w)
         == ObstacleSum(obstacles, w) + (if o.wallId == w then o.surface else 0.0)
  {
    var after := obstacles[k := o];
    var ids := WallObstacleIds(obstacles, w);
    SumFrame(Surfaces(obstacles), Surfaces(after), ids);
    if o.wallId == w {
      assert WallObstacleIds(after, w) == ids + {k};
      SumAdd(Surfaces(after), ids, k);
    } else {
      assert WallObstacleIds(after, w) == ids;
    }
  }

  /** Removing an obstacle changes only its own wall's total, by its own surface. */
  lemma ObstacleSumRemove(obstacles: map<int, Obstacle>, k: int, w: int)
    requires k in obstacles
    ensures ObstacleSum(obstacles - {k}, w)
         == ObstacleSum(obstacles, w) - (if obstacles[k].wallId == w then obstacles[k].surface else 0.0)
  {
    var rest := obstacles - {k};
    assert obstacles == rest[k := obstacles[k]];
    ObstacleSumInsert(rest, k, obstacles[k], w);
  }

  /**
   * A pending obstacle (surface -1, as created) is subtracted like any other:
   * it raises its wall's recomputed surface by 1 and leaves other walls alone.
   */
  lemma PendingObstacleRaisesSurface(obstacles: map<int, Obstacle>, k: int, o: Obstacle)
    requires k !in obstacles && o.surface == Pending
    ensures ObstacleSum(obstacles[k := o], o.wallId) == ObstacleSum(obstacles, o.wallId) - 1.0
    ensures forall w :: w != o.wallId ==> ObstacleSum(obstacles[k := o], w) == ObstacleSum(obstacles, w)
  {
    ObstacleSumInsert(obstacles, k, o, o.wallId);
    forall w | w != o.wallId
      ensures ObstacleSum(obstacles[k := o], w) == ObstacleSum(obstacles, w)
    {
      ObstacleSumInsert(obstacles, k, o, w);
    }
  }

  /**
   * `get_surface`: the given area minus the surfaces of the obstacles on
   * wall `wId`, in whatever order the query returns them. Reads only.
   */
  method GetSurface(db: Database, wId: int, surface: real) returns (r: real)
    ensures r == surface - ObstacleSum(db.obstacles, wId)
  {
    var rows := WallObstacleIds(db.obstacles, wId);
    var surfaces := Surfaces(db.obstacles);
    r := surface;
    var rest := rows;
    while rest != {}
      invariant rest <= rows
      invariant r == surface - Sum(surfaces, rows - rest)
      decreases rest
    {
      HasElement(rest);
      var k :| k in rest;
      SumAdd(surfaces, rows - rest, k);
      assert (rows - rest) + {k} == rows - (rest - {k});
      r := r - db.obstacles[k].surface;
      rest := rest - {k};
    }
    assert rows - rest == rows;
  }

  /** The row `update_surface` writes: the original surface minus the obstacles' total. */
  function Recomputed(w: Wall, obstacleSum: real): (w': Wall)
    ensures w'.surface + obstacleSum == w.originalSurface
    ensures w'.originalSurface == w.originalSurface
    ensures w' == w.(surface := w'.surface)
  {
    w.(surface := w.originalSurface - obstacleSum)
  }

  /** Wall `w`'s stored surface is its original surface net of its current obstacles. */
  ghost predicate SurfaceCurrent(walls: map<int, Wall>, obstacles: map<int, Obstacle>, w: int)
  {
    w in walls && walls[w].surface == walls[w].originalSurface - ObstacleSum(obstacles, w)
  }

  /** Recomputing twice without an obstacle change gives what recomputing once gave. */
  lemma RecomputeIdempotent(w: Wall, obstacleSum: real)
    ensures Recomputed(Recomputed(w, obstacleSum), obstacleSum) == Recomputed(w, obstacleSum)
  {
  }

  /**
   * `update_surface`: sets wall `wId`'s surface to its original surface
   * minus the surfaces of its obstacles. On a missing wall the source fails
   * (it indexes the `None` the query returned): `found` is false and nothing
   * changes.
   */
  method UpdateSurface(db: Database, wId: int) returns (found: bool)
    modifies db
    ensures found == (wId in old(db.walls))
    ensures db.walls == if found
      then old(db.walls)[wId := Recomputed(old(db.walls)[wId], ObstacleSum(db.obstacles, wId))]
      else old(db.walls)
    ensures found ==> SurfaceCurrent(db.walls, db.obstacles, wId)
    ensures db.houses == old(db.houses) && db.rooms == old(db.rooms) && db.obstacles == old(db.obstacles)
  {
    if wId !in db.walls {
      return false;
    }
    var rows := WallObstacleIds(db.obstacles, wId);
    var surfaces := Surfaces(db.obstacles);
    var surface := db.walls[wId].originalSurface;
    var rest := rows;
    while rest != {}
      invariant unchanged(db)
      invariant rest <= rows
      invariant surface == db.walls[wId].originalSurface - Sum(surfaces, rows - rest)
      decreases rest
    {
      HasElement(rest);
      var k :| k in rest;
      SumAdd(surfaces, rows - rest, k);
      assert (rows - rest) + {k} == rows - (rest - {k});
      surface := surface - db.obstacles[k].surface;
      rest := rest - {k};
    }
    assert rows - rest == rows;
    db.walls := db.walls[wId := db.walls[wId].(surface := surface)];
    found := true;
  }

  /**
   * The row `wall_details` writes, as written, given the shape's area and the
   * current obstacle total: one-dimension shapes store the net area in both
   * columns; the other shapes store it in `surface` only.
   */
  function DetailsWrite(w: Wall, s: Shape, area: real, obstacleSum: real): (w': Wall)
    ensures w'.surface == area - obstacleSum
    ensures Arity(s) == 1 ==> w'.originalSurface == area - obstacleSum
    ensures Arity(s) != 1 ==> w'.originalSurface == w.originalSurface
    ensures w' == w.(surface := w'.surface, originalSurface := w'.originalSurface)
  {
    if Arity(s) == 1 then
      w.(surface := area - obstacleSum, originalSurface := area - obstacleSum)
    else
      w.(surface := area - obstacleSum)
  }

  /** The wall table after `wall_details` for a known shape. */
  ghost function WallsAfterDetails(walls: map<int, Wall>, obstacles: map<int, Obstacle>, wId: int,
                                   s: Shape, dimOne: RawInput, dimTwo: RawInput, dimThree: RawInput): map<int, Wall>
  {
    var area := ValidatedArea(s, dimOne, dimTwo, dimThree);
    if area.Some? && wId in walls then
      walls[wId := DetailsWrite(walls[wId], s, area.value, ObstacleSum(obstacles, wId))]
    else
      walls
  }

  /** What `wall_details` writes for a one-dimension shape: the net area, in both columns. */
  lemma WallsAfterDetailsOne(walls: map<int, Wall>, obstacles: map<int, Obstacle>, wId: int,
                             s: Shape, dimOne: RawInput, dimTwo: RawInput, dimThree: RawInput)
    requires Arity(s) == 1
    ensures var net := Area(s, [Value(dimOne)]) - ObstacleSum(obstacles, wId);
      WallsAfterDetails(walls, obstacles, wId, s, dimOne, dimTwo, dimThree)
        == if CheckMeasurementInput(dimOne).Measurement? && wId in walls
           then walls[wId := walls[wId].(surface := net, originalSurface := net)]
           else walls
  {
    ValidatedAreaOne(s, dimOne, dimTwo, dimThree);
  }

  /** What `wall_details` writes for a two-dimension shape: the net area, in `surface` only. */
  lemma WallsAfterDetailsTwo(walls: map<int, Wall>, obstacles: map<int, Obstacle>, wId: int,
                             s: Shape, dimOne: RawInput, dimTwo: RawInput, dimThree: RawInput)
    requires Arity(s) == 2
    ensures var net := Area(s, [Value(dimOne), Value(dimTwo)]) - ObstacleSum(obstacles, wId);
      WallsAfterDetails(walls, obstacles, wId, s, dimOne, dimTwo, dimThree)
        == if CheckMeasurementInput(dimOne).Measurement? && CheckMeasurementInput(dimTwo).Measurement? && wId in walls
           then walls[wId := walls[wId].(surface := net)]
           else walls
  {
    ValidatedAreaTwo(s, dimOne, dimTwo, dimThree);
  }

  /** What `wall_details` writes for the trapezoid: the net area, in `surface` only. */
  lemma WallsAfterDetailsThree(walls: map<int, Wall>, obstacles: map<int, Obstacle>, wId: int,
                               s: Shape, dimOne: RawInput, dimTwo: RawInput, dimThree: RawInput)
    requires Arity(s) == 3
    ensures var net := Area(s, [Value(dimOne), Value(dimTwo), Value(dimThree)]) - ObstacleSum(obstacles, wId);
      WallsAfterDetails(walls, obstacles, wId, s, dimOne, dimTwo, dimThree)
        == if && CheckMeasurementInput(dimOne).Measurement? && CheckMeasurementInput(dimTwo).Measurement?
              && CheckMeasurementInput(dimThree).Measurement? && wId in walls
           then walls[wId := walls[wId].(surface := net)]
           else walls
  {
    ValidatedAreaThree(s, dimOne, dimTwo, dimThree);
  }

  /**
   * `wall_details` (POST): reads as many dimensions as the shape needs and,
   * when every one passes the check, writes the wall's area net of its
   * obstacles. A failed check writes nothing and still redirects; an unknown
   * shape returns the error text.
   */
  method WallDetails(db: Database, rId: int, wId: int, wallShape: string,
                     dimOne: RawInput, dimTwo: RawInput, dimThree: RawInput) returns (response: Response)
    modifies db
    ensures ToShape(Lower(wallShape)).None? ==>
      response == Text(ShapeNotFound) && db.walls == old(db.walls)
    ensures ToShape(Lower(wallShape)).Some? ==>
      && response == Redirect(WallIndex(rId))
      && db.walls == WallsAfterDetails(old(db.walls), db.obstacles, wId,
                                       ToShape(Lower(wallShape)).value, dimOne, dimTwo, dimThree)
    ensures db.houses == old(db.houses) && db.rooms == old(db.rooms) && db.obstacles == old(db.obstacles)
  {
    var shape := ToShape(Lower(wallShape));
    if shape.None? {
      return Text(ShapeNotFound);
    }
    var s := shape.value;
    if Arity(s) == 1 {
      WallsAfterDetailsOne(db.walls, db.obstacles, wId, s, dimOne, dimTwo, dimThree);
      var first := CheckMeasurementInput(dimOne);
      if first.Measurement? {
        var surface := Area(s, [first.value]);
        surface := GetSurface(db, wId, surface);
        if wId in db.walls {
          db.walls := db.walls[wId := db.walls[wId].(surface := surface, originalSurface := surface)];
        }
      }
    } else if Arity(s) == 2 {
      WallsAfterDetailsTwo(db.walls, db.obstacles, wId, s, dimOne, dimTwo, dimThree);
      var first := CheckMeasurementInput(dimOne);
      var second := CheckMeasurementInput(dimTwo);
      if first.Measurement? && second.Measurement? {
        var surface := Area(s, [first.value, second.value]);
        surface := GetSurface(db, wId, surface);
        if wId in db.walls {
          db.walls := db.walls[wId := db.walls[wId].(surface := surface)];
        }
      }
    } else {
      WallsAfterDetailsThree(db.walls, db.obstacles, wId, s, dimOne, dimTwo, dimThree);
      var first := CheckMeasurementInput(dimOne);
      var second := CheckMeasurementInput(dimTwo);
      var third := CheckMeasurementInput(dimThree);
      if first.Measurement? && second.Measurement? && third.Measurement? {
        var surface := Area(s, [first.value, second.value, third.value]);
        surface := GetSurface(db, wId, surface);
        if wId in db.walls {
          db.walls := db.walls[wId := db.walls[wId].(surface := surface)];
        }
      }
    }
    response := Redirect(WallIndex(rId));
  }

  /** The `wall_id` column of the obstacle table. */
  function WallTags(obstacles: map<int, Obstacle>): (tag: map<int, int>)
    ensures tag.Keys == obstacles.Keys
    ensures forall k :: k in tag ==> tag[k] == obstacles[k].wallId
  {
    map k | k in obstacles :: obstacles[k].wallId
  }

  /** The walls that carry at least one obstacle. */
  function WallsWithObstacles(obstacles: map<int, Obstacle>): (ws: set<int>)
    ensures forall k :: k in obstacles ==> obstacles[k].wallId in ws
  {
    var tag := WallTags(obstacles);
    assert forall k :: k in obstacles ==> tag[k] in Labels(tag, obstacles.Keys);
    Labels(tag, obstacles.Keys)
  }

  /** A wall is among the walls with obstacles exactly when some obstacle row names it. */
  lemma WallsWithObstaclesExact(obstacles: map<int, Obstacle>, w: int)
    ensures w in WallsWithObstacles(obstacles) <==> WallObstacleIds(obstacles, w) != {}
  {
    var tag := WallTags(obstacles);
    if w in WallsWithObstacles(obstacles) {
      var k :| k in obstacles.Keys && tag[k] == w;
      assert k in WallObstacleIds(obstacles, w);
    }
    if WallObstacleIds(obstacles, w) != {} {
      HasElement(WallObstacleIds(obstacles, w));
      var k :| k in WallObstacleIds(obstacles, w);
      assert tag[k] == w;
    }
  }

  /** Grouping the obstacles by their wall gives each wall's obstacles. */
  lemma FiberOfWall(obstacles: map<int, Obstacle>, w: int)
    ensures Fiber(WallTags(obstacles), obstacles.Keys, w) == WallObstacleIds(obstacles, w)
  {
  }

  /**
   * `counts` is the obstacle count of every wall that carries obstacles,
   * plus the seeded key 0.
   */
  predicate CountsObstacles(counts: map<int, nat>, obstacles: map<int, Obstacle>)
  {
    && counts.Keys == {0} + WallsWithObstacles(obstacles)
    && forall w :: w in counts ==> counts[w] == |WallObstacleIds(obstacles, w)|
  }

  /** `counts` holds, besides the seeded key 0, the size of each group of `done` by tag. */
  predicate CountsGroups(counts: map<int, nat>, tag: map<int, int>, done: set<int>)
    requires done <= tag.Keys
  {
    && counts.Keys == {0} + Labels(tag, done)
    && forall w :: w in counts ==> counts[w] == |Fiber(tag, done, w)|
  }

  /** Counting one more row into its group. */
  lemma CountsGroupsStep(counts: map<int, nat>, tag: map<int, int>, done: set<int>, k: int)
    requires done <= tag.Keys && k in tag && k !in done
    requires CountsGroups(counts, tag, done)
    ensures CountsGroups(if tag[k] !in counts then counts[tag[k] := 1] else counts[tag[k] := counts[tag[k]] + 1],
                         tag, done + {k})
  {
    FiberAdd(tag, done, k);
  }

  /** Counting every obstacle row into its wall's group gives the counts of the index view. */
  lemma CountsGroupsComplete(counts: map<int, nat>, obstacles: map<int, Obstacle>)
    requires CountsGroups(counts, WallTags(obstacles), obstacles.Keys)
    ensures CountsObstacles(counts, obstacles)
  {
    forall w | w in counts ensures counts[w] == |WallObstacleIds(obstacles, w)| {
      FiberOfWall(obstacles, w);
    }
  }

  /**
   * The `obstacles_per_wall` dictionary of the wall index view: seeded with
   * `{0: 0}`, then one count per obstacle row.
   */
  method ObstaclesPerWall(db: Database) returns (counts: map<int, nat>)
    ensures CountsObstacles(counts, db.obstacles)
  {
    var obstacles := db.obstacles;
    var tag := WallTags(obstacles);
    counts := map[0 := 0];
    var rest := obstacles.Keys;
    assert Labels(tag, obstacles.Keys - rest) == {} by {
      assert obstacles.Keys - rest == {};
    }
    while rest != {}
      invariant rest <= obstacles.Keys
      invariant CountsGroups(counts, tag, obstacles.Keys - rest)
      decreases rest
    {
      HasElement(rest);
      var k :| k in rest;
      CountsGroupsStep(counts, tag, obstacles.Keys - rest, k);
      assert (obstacles.Keys - rest) + {k} == obstacles.Keys - (rest - {k});
      var w := tag[k];
      if w !in counts {
        counts := counts[w := 1];
      } else {
        counts := counts[w := counts[w] + 1];
      }
      rest := rest - {k};
    }
    assert obstacles.Keys - rest == obstacles.Keys;
    CountsGroupsComplete(counts, obstacles);
  }

  /** A count dictionary read as reals, to be summed. */
  function CountsAsReals(counts: map<int, nat>): (m: map<int, real>)
    ensures m.Keys == counts.Keys
    ensures forall w :: w in m ==> m[w] == counts[w] as real
  {
    map w | w in counts :: counts[w] as real
  }

  /** The value 1 for every obstacle row. */
  function Ones(ids: set<int>): (m: map<int, real>)
    ensures m.Keys == ids
    ensures forall k :: k in m ==> m[k] == 1.0
  {
    map k | k in ids :: 1.0
  }

  /** Counting the obstacles of one wall through the grouping by wall gives its count. */
  lemma GroupCounts(obstacles: map<int, Obstacle>)
    ensures forall w :: w in WallsWithObstacles(obstacles) ==>
      FiberSums(Ones(obstacles.Keys), WallTags(obstacles), obstacles.Keys)[w]
        == |WallObstacleIds(obstacles, w)| as real
  {
    var tag := WallTags(obstacles);
    var ids := obstacles.Keys;
    forall w | w in WallsWithObstacles(obstacles)
      ensures FiberSums(Ones(ids), tag, ids)[w] == |WallObstacleIds(obstacles, w)| as real
    {
      FiberOfWall(obstacles, w);
      SumCount(Ones(ids), Fiber(tag, ids, w));
    }
  }

  /**
   * When no obstacle names wall 0, the counts other than the seeded `0: 0`
   * add up to the number of obstacles: each obstacle is counted once.
   */
  lemma ObstacleCountsAddUp(obstacles: map<int, Obstacle>, counts: map<int, nat>)
    requires CountsObstacles(counts, obstacles)
    requires forall k :: k in obstacles ==> obstacles[k].wallId != 0
    ensures Sum(CountsAsReals(counts), counts.Keys - {0}) == |obstacles.Keys| as real
  {
    var ids := obstacles.Keys;
    var tag := WallTags(obstacles);
    var groups := FiberSums(Ones(ids), tag, ids);
    var walls := Labels(tag, ids);
    SumPartition(Ones(ids), tag, ids);
    SumCount(Ones(ids), ids);
    assert walls == counts.Keys - {0} by {
      assert 0 !in walls;
    }
    GroupCounts(obstacles);
    assert forall w :: w in walls ==> groups[w] == CountsAsReals(counts)[w];
    SumFrame(groups, CountsAsReals(counts), walls);
  }

  /** `get_wall`: the wall with id `wId` in room `rId`, or 404. */
  function GetWall(walls: map<int, Wall>, wId: int, rId: int, checkAuthor: bool): (r: Lookup<Wall>)
    ensures r.Found? <==> wId in walls && walls[wId].roomId == rId
    ensures r.Found? ==> r.row == walls[wId]
    ensures !r.Forbidden?
  {
    var row := if wId in walls && walls[wId].roomId == rId then Some(walls[wId]) else None;
    if row.None? then NotFound
    else if checkAuthor && row.value.roomId != rId then Forbidden
    else Found(row.value)
  }

  // Finding: `wall_details` stores the gross area in `original_surface` only for a
  // one-dimension shape measured before the wall has obstacles.

  /**
   * As written, the area a details form measured does not survive the next
   * `update_surface` for a two- or three-dimension shape: the recomputed
   * surface depends only on the `original_surface` the row already had.
   * For a one-dimension shape the obstacles present at measuring time are
   * subtracted a second time.
   */
  lemma DetailsLostOnRecompute(w: Wall, s: Shape, area: real, obstacleSum: real, laterSum: real)
    ensures Arity(s) != 1 ==>
      Recomputed(DetailsWrite(w, s, area, obstacleSum), laterSum).surface == w.originalSurface - laterSum
    ensures Arity(s) == 1 ==>
      Recomputed(DetailsWrite(w, s, area, obstacleSum), laterSum).surface == area - obstacleSum - laterSum
  {
  }

  /**
   * The input that shows it: a new wall (both columns -1) measured as a 4 by 3
   * rectangle, then given a circular obstacle of radius 1. The wall should
   * read 12 - π; `update_surface` makes it -1 - π.
   */
  lemma RectangleWallLosesItsArea(w: Wall)
    requires w.surface == Pending && w.originalSurface == Pending
    ensures var measured := DetailsWrite(w, Rectangle, Area(Rectangle, [4.0, 3.0]), 0.0);
      && measured.surface == 12.0
      && Recomputed(measured, Area(Circle, [1.0])).surface == -1.0 - Pi
      && Recomputed(measured, Area(Circle, [1.0])).surface != 12.0 - Area(Circle, [1.0])
  {
  }

  /**
   * The intended write: `original_surface` holds the shape's gross area and
   * `surface` that area net of the current obstacles, for every shape.
   */
  function DetailsWriteIntended(w: Wall, area: real, obstacleSum: real): (w': Wall)
    ensures w'.originalSurface == area
    ensures w'.surface + obstacleSum == area
    ensures w'.roomId == w.roomId && w'.name == w.name && w'.paintId == w.paintId && w'.shape == w.shape
  {
    w.(surface := area - obstacleSum, originalSurface := area)
  }

  /**
   * With the intended write, recomputing right away changes nothing, and
   * recomputing after the obstacles change gives the measured area net of
   * the new obstacles.
   */
  lemma IntendedDetailsSurviveRecompute(w: Wall, area: real, obstacleSum: real, laterSum: real)
    ensures Recomputed(DetailsWriteIntended(w, area, obstacleSum), obstacleSum)
         == DetailsWriteIntended(w, area, obstacleSum)
    ensures Recomputed(DetailsWriteIntended(w, area, obstacleSum), laterSum).surface == area - laterSum
  {
  }
}
