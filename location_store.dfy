/**
 * The in-memory stand-in for the database in lib/db.ts: a seed list of users,
 * a mutable list of locations, and a statement dispatcher that serves every
 * query from them by testing which keywords the statement text contains.
 */
module LocationStore {
  import opened JsValues
  import opened Seqs

  /** A row of the locations list; fields are stored exactly as they were passed. */
  datatype Location = Location(id: JsValue, size: JsValue, status: JsValue)

  datatype User = User(id: int, username: string, password: string, name: string, role: string)

  /** The fixed user list the store answers user lookups from. */
  function MockUsers(): seq<User> {
    [User(1, "ilde", "8019", "Ilde Núñez", "admin")]
  }

  /** The locations list when the process starts. */
  function SeedLocations(): seq<Location> {
    [ Location(Str("U010101A1"), Str("PEQUEÑO"), Str("EMPTY")),
      Location(Str("U010102A1"), Str("MEDIANO"), Str("HALF")),
      Location(Str("U010103A1"), Str("GRANDE"), Str("FULL")) ]
  }

  /** The SQL statements the application issues, one per statement text. */
  datatype Statement =
    | SelectUserByUsername        // users lookup of the login route
    | SelectLocationsOrderedById  // getLocations
    | SelectLocationById          // getLocationById
    | InsertLocation              // createLocation
    | UpdateLocation              // updateLocation: parameters size, status, id
    | UpdateLocationByCode        // movement route: parameters status, code
    | DeleteLocation              // deleteLocation
    | InsertMovementLog           // movement route: the movement_logs insert

  /** The substrings the dispatcher looks for in a statement text. */
  datatype Keyword =
    | UsersByUsername       // "SELECT * FROM users WHERE username"
    | Select                // "SELECT"
    | Locations             // "locations"
    | InsertIntoLocations   // "INSERT INTO locations"
    | UpdateLocations       // "UPDATE locations"
    | DeleteFromLocations   // "DELETE FROM locations"

  /** The dispatcher keywords that occur in each statement's text. */
  function Keywords(st: Statement): set<Keyword> {
    match st
    case SelectUserByUsername => {UsersByUsername, Select}
    case SelectLocationsOrderedById => {Select, Locations}
    case SelectLocationById => {Select, Locations}
    case InsertLocation => {Locations, InsertIntoLocations}
    case UpdateLocation => {Locations, UpdateLocations}
    case UpdateLocationByCode => {Locations, UpdateLocations}
    case DeleteLocation => {Locations, DeleteFromLocations}
    case InsertMovementLog => {}
  }

  /** The dispatcher's branches, in the order it tries them. */
  datatype Branch = UserLookup | SelectAll | Append | ReplaceFirst | RemoveAll | Unrecognised

  /** The first branch whose keyword test a statement passes. */
  function BranchOf(st: Statement): (b: Branch)
    ensures b == UserLookup <==> st == SelectUserByUsername
    ensures b == SelectAll <==> st == SelectLocationsOrderedById || st == SelectLocationById
    ensures b == Append <==> st == InsertLocation
    ensures b == ReplaceFirst <==> st == UpdateLocation || st == UpdateLocationByCode
    ensures b == RemoveAll <==> st == DeleteLocation
    ensures b == Unrecognised <==> st == InsertMovementLog
  {
    var k := Keywords(st);
    if UsersByUsername in k then UserLookup
    else if Select in k && Locations in k then SelectAll
    else if InsertIntoLocations in k then Append
    else if UpdateLocations in k then ReplaceFirst
    else if DeleteFromLocations in k then RemoveAll
    else Unrecognised
  }

  /** What a statement returns: rows for a select, a result header for a write, or an empty list. */
  datatype QueryResult =
    | UserRows(users: seq<User>)
    | LocationRows(rows: seq<Location>)
    | Inserted(insertId: JsValue)
    | Affected(affectedRows: int)
    | NoRows

  /** The seed users whose username equals `name` exactly (case-sensitive), in order. */
  function UsersNamed(users: seq<User>, name: JsValue): (r: seq<User>)
    ensures forall u :: u in r <==> u in users && Str(u.username) == name
    ensures forall u :: multiset(r)[u] == if Str(u.username) == name then multiset(users)[u] else 0
    ensures IsSubsequence(r, users)
  {
    if users == [] then []
    else
      var rest := UsersNamed(users[1..], name);
      assert users == [users[0]] + users[1..];
      if Str(users[0].username) == name then
        ConsSubsequence(users[0], rest, users[1..]);
        [users[0]] + rest
      else
        SkipSubsequence(users[0], rest, users[1..]);
        rest
  }

  /** Number of rows whose id is `id`. */
  function CountId(rows: seq<Location>, id: JsValue): nat {
    if rows == [] then 0 else (if rows[0].id == id then 1 else 0) + CountId(rows[1..], id)
  }

  /** Position of the first row whose id is `id`, or -1 when there is none. */
  function IndexOfId(rows: seq<Location>, id: JsValue): (r: int)
    ensures -1 <= r < |rows|
    ensures r == -1 <==> forall i :: 0 <= i < |rows| ==> rows[i].id != id
    ensures r >= 0 ==> rows[r].id == id && forall i :: 0 <= i < r ==> rows[i].id != id
  {
    if rows == [] then -1
    else if rows[0].id == id then 0
    else
      var k := IndexOfId(rows[1..], id);
      if k == -1 then -1 else k + 1
  }

  /** The list with the first row whose id is `row.id` replaced by `row`; unchanged when there is none. */
  function Replaced(rows: seq<Location>, row: Location): (r: seq<Location>)
    ensures |r| == |rows|
    ensures forall i :: 0 <= i < |rows| && i != IndexOfId(rows, row.id) ==> r[i] == rows[i]
    ensures IndexOfId(rows, row.id) >= 0 ==> r[IndexOfId(rows, row.id)] == row
    ensures IndexOfId(rows, row.id) == -1 ==> r == rows
  {
    var k := IndexOfId(rows, row.id);
    if k == -1 then rows else rows[k := row]
  }

  /** The list without any row whose id is `id`, the other rows in their original order. */
  function Without(rows: seq<Location>, id: JsValue): (r: seq<Location>)
    ensures forall i :: 0 <= i < |r| ==> r[i].id != id
    ensures forall l :: l in r <==> l in rows && l.id != id
    ensures IsSubsequence(r, rows)
    ensures forall l :: multiset(r)[l] == if l.id != id then multiset(rows)[l] else 0
    ensures |r| == |rows| - CountId(rows, id)
  {
    if rows == [] then []
    else
      var rest := Without(rows[1..], id);
      assert rows == [rows[0]] + rows[1..];
      if rows[0].id == id then
        SkipSubsequence(rows[0], rest, rows[1..]);
        rest
      else
        ConsSubsequence(rows[0], rest, rows[1..]);
        [rows[0]] + rest
  }

  /** What getLocationById gives back: the first row of the list, or null when the list is empty. */
  function FirstOrNull(rows: seq<Location>): (r: Option<Location>)
    ensures r == None <==> rows == []
    ensures r.Some? ==> r.value == rows[0]
  {
    if rows == [] then None else Some(rows[0])
  }

  /**
   * The row a lookup by id is meant to give: the first row carrying `id`, or
   * none. getLocationById does not do this (see FirstOrNull).
   */
  function LookupId(rows: seq<Location>, id: JsValue): (r: Option<Location>)
    ensures r.Some? <==> exists i :: 0 <= i < |rows| && rows[i].id == id
    ensures r.Some? ==> r.value.id == id && r.value in rows
    // the row found is the first one carrying the id
    ensures r.Some? ==>
      exists k :: 0 <= k < |rows| && rows[k] == r.value && forall i :: 0 <= i < k ==> rows[i].id != id
  {
    var k := IndexOfId(rows, id);
    if k == -1 then None else Some(rows[k])
  }

  /** No two rows share an id. */
  predicate UniqueIds(rows: seq<Location>) {
    forall i, j :: 0 <= i < j < |rows| ==> rows[i].id != rows[j].id
  }

  /** Every row has a defined id. */
  predicate IdsDefined(rows: seq<Location>) {
    forall i :: 0 <= i < |rows| ==> rows[i].id.Str?
  }

  /**
   * The store of lib/db.ts: the locations list is a module-level variable that
   * INSERT extends, UPDATE assigns into and DELETE reassigns.
   */
  class Store {
    var locations: seq<Location>
    /** The statements the store has received, oldest first. */
    ghost var received: seq<Statement>

    constructor ()
      ensures locations == SeedLocations() && received == []
    {
      locations := SeedLocations();
      received := [];
    }

    /** The position `findIndex` gives for `id`: the first matching row, or -1. */
    method FindIndex(id: JsValue) returns (index: int)
      ensures index == IndexOfId(locations, id)
    {
      index := 0;
      while index < |locations| && locations[index].id != id
        invariant 0 <= index <= |locations|
        invariant forall i :: 0 <= i < index ==> locations[i].id != id
      {
        index := index + 1;
      }
      if index == |locations| {
        index := -1;
      }
    }

    /** Serves one statement from the in-memory lists, trying the branches in order. */
    method Query(st: Statement, values: seq<JsValue>) returns (res: QueryResult)
      modifies this
      ensures received == old(received) + [st]
      ensures BranchOf(st) == UserLookup ==>
        res == UserRows(UsersNamed(MockUsers(), At(values, 0))) && locations == old(locations)
      ensures BranchOf(st) == SelectAll ==>
        res == LocationRows(old(locations)) && locations == old(locations)
      ensures BranchOf(st) == Append ==>
        res == Inserted(At(values, 0)) &&
        locations == old(locations) + [Location(At(values, 0), At(values, 1), At(values, 2))]
      ensures BranchOf(st) == ReplaceFirst ==>
        res == Affected(1) &&
        locations == Replaced(old(locations), Location(At(values, 2), At(values, 0), At(values, 1)))
      ensures BranchOf(st) == RemoveAll ==>
        res == Affected(1) && locations == Without(old(locations), At(values, 0))
      ensures BranchOf(st) == Unrecognised ==>
        res == NoRows && locations == old(locations)
    {
      received := received + [st];
      var k := Keywords(st);
      if UsersByUsername in k {
        res := UserRows(UsersNamed(MockUsers(), At(values, 0)));
        return;
      }
      if Select in k && Locations in k {
        res := LocationRows(locations);
        return;
      }
      if InsertIntoLocations in k {
        var row := Location(At(values, 0), At(values, 1), At(values, 2));
        locations := locations + [row];
        res := Inserted(row.id);
        return;
      }
      if UpdateLocations in k {
        var size, status, id := At(values, 0), At(values, 1), At(values, 2);
        var index := FindIndex(id);
        if index != -1 {
          locations := locations[index := Location(id, size, status)];
        }
        res := Affected(1);
        return;
      }
      if DeleteFromLocations in k {
        locations := Without(locations, At(values, 0));
        res := Affected(1);
        return;
      }
      res := NoRows;
    }

    /** getLocations: the whole list in insertion order; the requested ordering has no effect. */
    method GetLocations() returns (rows: seq<Location>)
      modifies this
      ensures rows == old(locations) && locations == old(locations)
      ensures received == old(received) + [SelectLocationsOrderedById]
    {
      var res := Query(SelectLocationsOrderedById, []);
      rows := res.rows;
    }

    /** getLocationById: the first row of the list whatever `id` is asked for. */
    method GetLocationById(id: string) returns (r: Option<Location>)
      modifies this
      ensures r == FirstOrNull(old(locations)) && locations == old(locations)
      ensures received == old(received) + [SelectLocationById]
    {
      var res := Query(SelectLocationById, [Str(id)]);
      r := FirstOrNull(res.rows);
    }

    /** createLocation: appends the row as given, without any check on id, size or status. */
    method CreateLocation(id: JsValue, size: JsValue, status: JsValue) returns (res: QueryResult)
      modifies this
      ensures res == Inserted(id)
      ensures locations == old(locations) + [Location(id, size, status)]
      ensures received == old(received) + [InsertLocation]
    {
      res := Query(InsertLocation, [id, size, status]);
    }

    /** updateLocation: replaces the first row with this id; reports one affected row in every case. */
    method UpdateLocation(id: string, size: JsValue, status: JsValue) returns (res: QueryResult)
      modifies this
      ensures res == Affected(1)
      ensures locations == Replaced(old(locations), Location(Str(id), size, status))
      ensures received == old(received) + [Statement.UpdateLocation]
    {
      res := Query(Statement.UpdateLocation, [size, status, Str(id)]);
    }

    /** deleteLocation: removes every row with this id; reports one affected row in every case. */
    method DeleteLocation(id: string) returns (res: QueryResult)
      modifies this
      ensures res == Affected(1)
      ensures locations == Without(old(locations), Str(id))
      ensures received == old(received) + [Statement.DeleteLocation]
    {
      res := Query(Statement.DeleteLocation, [Str(id)]);
    }
  }

  /** Appending a row adds exactly one row with its id. */
  lemma {:induction false} CountIdAppend(rows: seq<Location>, row: Location)
    ensures CountId(rows + [row], row.id) == CountId(rows, row.id) + 1
  {
    if rows != [] {
      assert (rows + [row])[1..] == rows[1..] + [row];
      CountIdAppend(rows[1..], row);
    }
  }

  /** Inserting the same location twice leaves two more rows with its id: INSERT checks no uniqueness. */
  lemma InsertTwiceDuplicates(rows: seq<Location>, row: Location)
    ensures CountId(rows + [row] + [row], row.id) == CountId(rows, row.id) + 2
    ensures !UniqueIds(rows + [row] + [row])
  {
    CountIdAppend(rows, row);
    CountIdAppend(rows + [row], row);
    var n := |rows|;
    assert (rows + [row] + [row])[n] == row && (rows + [row] + [row])[n + 1] == row;
  }

  /** A row whose id is already present breaks uniqueness; any other keeps it. */
  lemma InsertKeepsUniqueIds(rows: seq<Location>, row: Location)
    requires UniqueIds(rows)
    ensures UniqueIds(rows + [row]) <==> IndexOfId(rows, row.id) == -1
  {
    var k := IndexOfId(rows, row.id);
    if k != -1 {
      assert (rows + [row])[k].id == (rows + [row])[|rows|].id;
    }
  }

  /** UPDATE for an id that no row carries leaves the list as it was. */
  lemma ReplacedUnknownId(rows: seq<Location>, row: Location)
    requires forall i :: 0 <= i < |rows| ==> rows[i].id != row.id
    ensures Replaced(rows, row) == rows
  {
  }

  /** UPDATE keeps every id where it was, so a list with unique ids keeps them. */
  lemma ReplacedKeepsUniqueIds(rows: seq<Location>, row: Location)
    requires UniqueIds(rows)
    ensures UniqueIds(Replaced(rows, row))
  {
    var r := Replaced(rows, row);
    assert forall i :: 0 <= i < |rows| ==> r[i].id == rows[i].id;
  }

  /** When no row has the id, DELETE changes nothing. */
  lemma {:induction false} WithoutAbsent(rows: seq<Location>, id: JsValue)
    requires forall i :: 0 <= i < |rows| ==> rows[i].id != id
    ensures Without(rows, id) == rows
  {
    if rows != [] {
      WithoutAbsent(rows[1..], id);
    }
  }

  /** A second DELETE of the same id changes nothing. */
  lemma WithoutIdempotent(rows: seq<Location>, id: JsValue)
    ensures Without(Without(rows, id), id) == Without(rows, id)
  {
    WithoutAbsent(Without(rows, id), id);
  }

  /** DELETE keeps the ids of a list with unique ids unique. */
  lemma {:induction false} WithoutKeepsUniqueIds(rows: seq<Location>, id: JsValue)
    requires UniqueIds(rows)
    ensures UniqueIds(Without(rows, id))
  {
    if rows != [] {
      WithoutKeepsUniqueIds(rows[1..], id);
      var rest := Without(rows[1..], id);
      if rows[0].id != id {
        forall j | 0 <= j < |rest| ensures rest[j].id != rows[0].id {
          assert rest[j] in rows[1..];
          var m :| 0 <= m < |rows[1..]| && rows[1..][m] == rest[j];
          assert rows[m + 1] == rest[j];
        }
      }
    }
  }

  /** The seed users answer a lookup for "ilde" with their one row, and a lookup differing in case with none. */
  lemma SeedUserLookup()
    ensures UsersNamed(MockUsers(), Str("ilde")) == MockUsers()
    ensures UsersNamed(MockUsers(), Str("Ilde")) == []
  {
    var us := MockUsers();
    assert us[1..] == [];
    assert UsersNamed(us[1..], Str("ilde")) == [];
  }

  /** Asking getLocationById for the third seed location gives the first one instead. */
  lemma GetByIdIgnoresId()
    ensures FirstOrNull(SeedLocations()) == Some(SeedLocations()[0])
    ensures LookupId(SeedLocations(), Str("U010103A1")) == Some(SeedLocations()[2])
    ensures FirstOrNull(SeedLocations()) != LookupId(SeedLocations(), Str("U010103A1"))
  {
    var rows := SeedLocations();
    assert rows[0].id != Str("U010103A1") && rows[1].id != Str("U010103A1");
  }

  /** A location created with a fresh id is found again, equal in all fields. */
  lemma CreateThenLookup(rows: seq<Location>, row: Location)
    requires forall i :: 0 <= i < |rows| ==> rows[i].id != row.id
    ensures LookupId(rows + [row], row.id) == Some(row)
  {
    assert (rows + [row])[|rows|] == row;
  }

  /** After an UPDATE of a present id, the lookup finds the new row. */
  lemma UpdateThenLookup(rows: seq<Location>, row: Location)
    requires exists i :: 0 <= i < |rows| && rows[i].id == row.id
    ensures LookupId(Replaced(rows, row), row.id) == Some(row)
  {
    var k := IndexOfId(rows, row.id);
    var r := Replaced(rows, row);
    assert r[k] == row;
    assert forall i :: 0 <= i < k ==> r[i] == rows[i];
  }

  /** After a DELETE the lookup finds nothing. */
  lemma DeleteThenLookup(rows: seq<Location>, id: JsValue)
    ensures LookupId(Without(rows, id), id) == None
  {
  }
}
