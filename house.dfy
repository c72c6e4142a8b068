/**
 * toolbox/house.py: the `delete` cascade over a house's rooms and their
 * walls, and the lookups `get_house` and `get_rooms`.
 */
module Houses {

  import opened Sums
  import opened Tables
  import opened Rooms

  /**
   * `get_house`: house `id` when its owner is the logged-in user `userId`,
   * or 404. The query already filters on the owner, so 403 never happens.
   */
  function GetHouse(houses: map<int, House>, id: int, userId: int, checkAuthor: bool): (r: Lookup<House>)
    ensures r.Found? <==> id in houses && houses[id].authorId == userId
    ensures r.Found? ==> r.row == houses[id]
    ensures !r.Forbidden?
  {
    var row := if id in houses && houses[id].authorId == userId then Some(houses[id]) else None;
    if row.None? then NotFound
    else if checkAuthor && row.value.authorId != userId then Forbidden
    else Found(row.value)
  }

  /** `get_rooms`: exactly the rooms of house `id`. */
  function GetRooms(rooms: map<int, Room>, id: int): (r: map<int, Room>)
    ensures forall k :: k in r <==> k in rooms && rooms[k].houseId == id
    ensures forall k :: k in r ==> r[k] == rooms[k]
  {
    map k | k in rooms && rooms[k].houseId == id :: rooms[k]
  }

  /**
   * `delete`: after `get_house` has found house `id` owned by `userId`,
   * deletes, room by room, the room's walls and the room, and then the
   * house; aborts with 404 before any deletion otherwise. Obstacles are
   * never touched.
   */
  method Delete(db: Database, id: int, userId: int) returns (response: Response)
    modifies db
    ensures GetHouse(old(db.houses), id, userId, true).NotFound? ==>
      response == Abort(404) && db.houses == old(db.houses) && db.rooms == old(db.rooms) && db.walls == old(db.walls)
    ensures GetHouse(old(db.houses), id, userId, true).Found? ==>
      && response == Redirect(HouseIndex)
      && db.houses == old(db.houses) - {id}
      && db.rooms == old(db.rooms) - GetRooms(old(db.rooms), id).Keys
      && db.walls == WallsOutside(old(db.walls), GetRooms(old(db.rooms), id).Keys)
    ensures db.obstacles == old(db.obstacles)
  {
    var house := GetHouse(db.houses, id, userId, true);
    if !house.Found? {
      return Abort(404);
    }
    var houseRooms := GetRooms(db.rooms, id).Keys;
    var rest := houseRooms;
    while rest != {}
      invariant rest <= houseRooms
      invariant db.walls == WallsOutside(old(db.walls), houseRooms - rest)
      invariant db.rooms == old(db.rooms) - (houseRooms - rest)
      invariant db.houses == old(db.houses) && db.obstacles == old(db.obstacles)
      decreases rest
    {
      HasElement(rest);
      var r :| r in rest;
      WallsOutsideUnion(old(db.walls), houseRooms - rest, {r});
      assert (houseRooms - rest) + {r} == houseRooms - (rest - {r});
      db.walls := WallsOutside(db.walls, {r});
      db.rooms := db.rooms - {r};
      rest := rest - {r};
    }
    assert houseRooms - rest == houseRooms;
    db.houses := db.houses - {id};
    response := Redirect(HouseIndex);
  }

  /**
   * What the cascade leaves: no room of the house and no wall of those rooms
   * remain, while every other room and every wall of another room is kept as
   * it was.
   */
  lemma DeleteLeavesNoOrphans(rooms: map<int, Room>, walls: map<int, Wall>, id: int)
    ensures forall r :: r in rooms - GetRooms(rooms, id).Keys ==> rooms[r].houseId != id
    ensures forall r :: r in rooms && rooms[r].houseId != id ==> r in rooms - GetRooms(rooms, id).Keys
    ensures forall k :: k in WallsOutside(walls, GetRooms(rooms, id).Keys) ==>
      walls[k].roomId !in rooms || rooms[walls[k].roomId].houseId != id
    ensures forall k :: k in walls && (walls[k].roomId !in rooms || rooms[walls[k].roomId].houseId != id) ==>
      k in WallsOutside(walls, GetRooms(rooms, id).Keys) && WallsOutside(walls, GetRooms(rooms, id).Keys)[k] == walls[k]
  {
  }
}
