/**
 * The four tables the toolbox views read and write (house, room, wall,
 * obstacle), the outcome of the lookup helpers, and the responses a view
 * returns. The SQLite database is an object holding one map per table, from
 * row id to row.
 */
module Tables {

  datatype Option<T> = None | Some(value: T)

  /** A row of the house table: its owner (`author_id`) and name. */
  datatype House = House(authorId: int, name: string)

  /** A row of the room table: the house it belongs to and its name. */
  datatype Room = Room(houseId: int, name: string)

  /**
   * A row of the wall table. `shape` is the name the user chose. `surface`
   * is the paintable area the details and recompute steps write.
   * `originalSurface` is what the recompute subtracts obstacles from. Both
   * start at the sentinel -1. The details form writes the net area into
   * `originalSurface` for one-dimension shapes only; the others leave it as
   * it was (-1 on a new wall).
   */
  datatype Wall = Wall(roomId: int, name: string, paintId: int, shape: string,
                       surface: real, originalSurface: real)

  /** A row of the obstacle table; `surface` is the obstacle's own area, -1 until measured. */
  datatype Obstacle = Obstacle(wallId: int, name: string, shape: string, surface: real)

  /** The surface a row holds between its creation and its details form. */
  const Pending: real := -1.0

  /** What a `get_*` helper does: return the row, or abort with 404 or 403. */
  datatype Lookup<T> = Found(row: T) | NotFound | Forbidden

  /** The pages a view redirects to. */
  datatype Page =
    | HouseIndex
    | RoomIndex(houseId: int)
    | WallIndex(roomId: int)
    | ObstacleIndex(wallId: int)
    | ObstacleDetailsForm(wallId: int, obstacleId: int, shape: string)

  /** What a view returns to the browser. */
  datatype Response =
    | Redirect(page: Page)
    | FormError(message: string)  // the message is flashed and the form shown again
    | Text(body: string)          // a plain string returned as the page
    | Abort(code: int)            // werkzeug's abort(404) / abort(403)
    | ServerError                 // an uncaught Python exception

  /** The database: one map per table, from row id to row. */
  class Database {
    var houses: map<int, House>
    var rooms: map<int, Room>
    var walls: map<int, Wall>
    var obstacles: map<int, Obstacle>

    constructor ()
      ensures houses == map[] && rooms == map[] && walls == map[] && obstacles == map[]
    {
      houses, rooms, walls, obstacles := map[], map[], map[], map[];
    }
  }
}
