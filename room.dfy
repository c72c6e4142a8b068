/**
 * toolbox/room.py: the per-room aggregation `get_values`, the `delete`
 * cascade over a room's walls, and `get_room`.
 *
 * `get_values` reads, for every wall, a (cost, quantity) pair from
 * `wall.get_values()`, a function toolbox/wall.py does not define; the pairs
 * are a parameter here.
 */
module Rooms {

  import opened Sums
  import opened Tables

  /** The (cost, quantity) pair `wall.get_values()` gives for one wall. */
  datatype WallValue = WallValue(cost: real, quantity: real)

  /** The tuple `get_values` stores per room: total cost, number of walls, and quantity per paint id. */
  datatype RoomValues = RoomValues(totalCost: real, numberOfWalls: nat, paintVals: map<int, real>)

  /** The ids among `ids` of the walls in room `r`. */
  function RoomWallsAmong(walls: map<int, Wall>, ids: set<int>, r: int): (s: set<int>)
    ensures s <= ids && s <= walls.Keys
    ensures forall k :: k in s <==> k in ids && k in walls && walls[k].roomId == r
  {
    set k | k in ids && k in walls && walls[k].roomId == r
  }

  /** The ids of the walls in room `r`: `w['room_id'] == room['id']`. */
  function RoomWallIds(walls: map<int, Wall>, r: int): (s: set<int>)
    ensures forall k :: k in s <==> k in walls && walls[k].roomId == r
  {
    RoomWallsAmong(walls, walls.Keys, r)
  }

  /** The cost column of the per-wall values. */
  function Costs(values: map<int, WallValue>): (m: map<int, real>)
    ensures m.Keys == values.Keys
  {
    map k | k in values :: values[k].cost
  }

  /** The quantity column of the per-wall values. */
  function Quantities(values: map<int, WallValue>): (m: map<int, real>)
    ensures m.Keys == values.Keys
  {
    map k | k in values :: values[k].quantity
  }

  /** The `paint_id` column of the wall table. */
  function PaintOf(walls: map<int, Wall>): (tag: map<int, int>)
    ensures tag.Keys == walls.Keys
  {
    map k | k in walls :: walls[k].paintId
  }

  /**
   * `v` summarises the walls `ids`: it counts them, totals their costs, and
   * has one entry per paint they use holding the total quantity of that paint.
   */
  ghost predicate Summarises(v: RoomValues, walls: map<int, Wall>, values: map<int, WallValue>, ids: set<int>)
    requires ids <= walls.Keys && ids <= values.Keys
  {
    && v.numberOfWalls == |ids|
    && v.totalCost == Sum(Costs(values), ids)
    && GroupSums(v.paintVals, Quantities(values), PaintOf(walls), ids)
  }

  /** The walls of the rooms a caller asks about all have values. */
  predicate ValuesCover(walls: map<int, Wall>, values: map<int, WallValue>, rooms: seq<int>)
  {
    forall k :: k in walls && walls[k].roomId in rooms ==> k in values
  }

  /** Counting one more wall of the room into the accumulators. */
  lemma SummaryStep(v: RoomValues, walls: map<int, Wall>, values: map<int, WallValue>, ids: set<int>, k: int)
    requires ids <= walls.Keys && ids <= values.Keys && k in walls && k in values && k !in ids
    requires Summarises(v, walls, values, ids)
    ensures var p := walls[k].paintId;
      var q := values[k].quantity;
      Summarises(RoomValues(v.totalCost + values[k].cost, v.numberOfWalls + 1,
                            if p !in v.paintVals then v.paintVals[p := q] else v.paintVals[p := v.paintVals[p] + q]),
                 walls, values, ids + {k})
  {
    var tag := PaintOf(walls);
    assert tag[k] == walls[k].paintId && Quantities(values)[k] == values[k].quantity;
    GroupSumsStep(v.paintVals, Quantities(values), tag, ids, k);
    SumAdd(Costs(values), ids, k);
  }

  /**
   * The inner loop of `get_values` for one room: walks every wall row and
   * accumulates the ones in room `r`.
   */
  method RoomSummary(db: Database, values: map<int, WallValue>, r: int) returns (v: RoomValues)
    requires forall k :: k in db.walls && db.walls[k].roomId == r ==> k in values
    ensures RoomWallIds(db.walls, r) <= values.Keys
    ensures Summarises(v, db.walls, values, RoomWallIds(db.walls, r))
  {
    var walls := db.walls;
    var totalCost := 0.0;
    var numberOfWalls := 0;
    var paintVals := map[];
    var rest := walls.Keys;
    assert RoomWallsAmong(walls, walls.Keys - rest, r) == {} by {
      assert walls.Keys - rest == {};
    }
    while rest != {}
      invariant rest <= walls.Keys
      invariant RoomWallsAmong(walls, walls.Keys - rest, r) <= values.Keys
      invariant Summarises(RoomValues(totalCost, numberOfWalls, paintVals), walls, values,
                           RoomWallsAmong(walls, walls.Keys - rest, r))
      decreases rest
    {
      HasElement(rest);
      var k :| k in rest;
      var seen := RoomWallsAmong(walls, walls.Keys - rest, r);
      if walls[k].roomId == r {
        SummaryStep(RoomValues(totalCost, numberOfWalls, paintVals), walls, values, seen, k);
        assert RoomWallsAmong(walls, walls.Keys - (rest - {k}), r) == seen + {k};
        numberOfWalls := numberOfWalls + 1;
        totalCost := totalCost + values[k].cost;
        var p := walls[k].paintId;
        if p !in paintVals {
          paintVals := paintVals[p := values[k].quantity];
        } else {
          paintVals := paintVals[p := paintVals[p] + values[k].quantity];
        }
      } else {
        assert RoomWallsAmong(walls, walls.Keys - (rest - {k}), r) == seen;
      }
      rest := rest - {k};
    }
    assert RoomWallsAmong(walls, walls.Keys - rest, r) == RoomWallIds(walls, r);
    v := RoomValues(totalCost, numberOfWalls, paintVals);
  }

  /**
   * `get_values`: one entry per room in `rooms`, keyed by room id, each
   * summarising that room's walls. Reads only.
   */
  method GetValues(db: Database, values: map<int, WallValue>, rooms: seq<int>) returns (roomValues: map<int, RoomValues>)
    requires ValuesCover(db.walls, values, rooms)
    ensures roomValues.Keys == Elements(rooms)
    ensures forall r :: r in roomValues ==>
      RoomWallIds(db.walls, r) <= values.Keys && Summarises(roomValues[r], db.walls, values, RoomWallIds(db.walls, r))
  {
    roomValues := map[];
    for i := 0 to |rooms|
      invariant roomValues.Keys == Elements(rooms[..i])
      invariant forall r :: r in roomValues ==>
        RoomWallIds(db.walls, r) <= values.Keys && Summarises(roomValues[r], db.walls, values, RoomWallIds(db.walls, r))
    {
      assert rooms[..i + 1] == rooms[..i] + [rooms[i]];
      var v := RoomSummary(db, values, rooms[i]);
      roomValues := roomValues[rooms[i] := v];
    }
    assert rooms[..|rooms|] == rooms;
  }

  /** A room with no walls gets `(0, 0, {})`. */
  lemma EmptyRoomSummary(v: RoomValues, walls: map<int, Wall>, values: map<int, WallValue>, r: int)
    requires RoomWallIds(walls, r) == {}
    requires Summarises(v, walls, values, RoomWallIds(walls, r))
    ensures v == RoomValues(0.0, 0, map[])
  {
    assert Labels(PaintOf(walls), {}) == {};
  }

  /** The per-paint quantities of a room add up to the room's total quantity. */
  lemma PaintValsAddUp(v: RoomValues, walls: map<int, Wall>, values: map<int, WallValue>, ids: set<int>)
    requires ids <= walls.Keys && ids <= values.Keys
    requires Summarises(v, walls, values, ids)
    ensures Sum(v.paintVals, v.paintVals.Keys) == Sum(Quantities(values), ids)
  {
    var tag := PaintOf(walls);
    SumPartition(Quantities(values), tag, ids);
    GroupSumsAreFiberSums(v.paintVals, Quantities(values), tag, ids);
  }

  /** `get_room`: room `rId` of house `hId` (the join also needs the house to exist), or 404. */
  function GetRoom(houses: map<int, House>, rooms: map<int, Room>, hId: int, rId: int, checkAuthor: bool): (r: Lookup<Room>)
    ensures r.Found? <==> rId in rooms && rooms[rId].houseId == hId && hId in houses
    ensures r.Found? ==> r.row == rooms[rId]
    ensures !r.Forbidden?
  {
    var row := if rId in rooms && rooms[rId].houseId == hId && hId in houses then Some(rooms[rId]) else None;
    if row.None? then NotFound
    else if checkAuthor && row.value.houseId != hId then Forbidden
    else Found(row.value)
  }

  /** The wall table after `DELETE FROM wall WHERE room_id = ?` for each room in `roomIds`. */
  function WallsOutside(walls: map<int, Wall>, roomIds: set<int>): (r: map<int, Wall>)
    ensures forall k :: k in r <==> k in walls && walls[k].roomId !in roomIds
    ensures forall k :: k in r ==> r[k] == walls[k]
  {
    map k | k in walls && walls[k].roomId !in roomIds :: walls[k]
  }

  /** Deleting the walls of two sets of rooms one after the other deletes the walls of their union. */
  lemma WallsOutsideUnion(walls: map<int, Wall>, a: set<int>, b: set<int>)
    ensures WallsOutside(WallsOutside(walls, a), b) == WallsOutside(walls, a + b)
  {
  }

  /**
   * `delete`: after `get_room` has found room `rId` in house `hId`, deletes
   * its walls and then the room; aborts with 404 and changes nothing
   * otherwise. Obstacles are never touched.
   */
  method Delete(db: Database, hId: int, rId: int) returns (response: Response)
    modifies db
    ensures GetRoom(old(db.houses), old(db.rooms), hId, rId, true).NotFound? ==>
      response == Abort(404) && db.rooms == old(db.rooms) && db.walls == old(db.walls)
    ensures GetRoom(old(db.houses), old(db.rooms), hId, rId, true).Found? ==>
      && response == Redirect(RoomIndex(hId))
      && db.rooms == old(db.rooms) - {rId}
      && db.walls == WallsOutside(old(db.walls), {rId})
    ensures db.houses == old(db.houses) && db.obstacles == old(db.obstacles)
  {
    var room := GetRoom(db.houses, db.rooms, hId, rId, true);
    if !room.Found? {
      return Abort(404);
    }
    db.walls := WallsOutside(db.walls, {rId});
    db.rooms := db.rooms - {rId};
    response := Redirect(RoomIndex(hId));
  }
}
