/**
 * The movement handler of app/api/movement/route.ts: it checks three fields,
 * then sends two statements to the store, the location update and the
 * movement-log insert, in that order.
 */
module MovementRoute {
  import opened JsValues
  import opened LocationStore

  /** The request body: unreadable, or the three fields it may carry. */
  datatype MovementRequest =
    | Unreadable
    | MovementBody(cartBarcode: JsValue, locationCode: JsValue, status: JsValue)

  /** A success message (status 200) or an error status with its message. */
  datatype MovementResponse = Recorded(message: string) | Rejected(status: int, error: string)

  const MissingParameters := "Faltan parámetros requeridos"
  const RecordFailure := "Error al registrar el movimiento"
  const RecordedMessage := "Movimiento registrado correctamente"

  /** Whether the request carries all three fields with a truthy value. */
  predicate Complete(req: MovementRequest) {
    req.MovementBody? && !Falsy(req.cartBarcode) && !Falsy(req.locationCode) && !Falsy(req.status)
  }

  /**
   * The row the update statement writes: its parameters are bound as size and
   * status, and the id it matches on is missing.
   */
  function MisboundRow(req: MovementRequest): (row: Location)
    requires req.MovementBody?
    ensures row.id == Undefined && row.size == req.status && row.status == req.locationCode
    // so it replaces nothing in a list whose ids are all defined
    ensures forall rows :: IdsDefined(rows) ==> Replaced(rows, row) == rows
  {
    Location(Undefined, req.status, req.locationCode)
  }

  /**
   * Records a movement against the store. Neither the size nor the status nor
   * the existence of the location is checked.
   */
  method Record(store: Store, req: MovementRequest) returns (r: MovementResponse)
    modifies store
    ensures req.Unreadable? ==> r == Rejected(500, RecordFailure)
    ensures req.MovementBody? && !Complete(req) ==> r == Rejected(400, MissingParameters)
    ensures !Complete(req) ==>
      store.locations == old(store.locations) && store.received == old(store.received)
    ensures Complete(req) ==>
      r == Recorded(RecordedMessage) &&
      store.received == old(store.received) + [UpdateLocationByCode, InsertMovementLog] &&
      store.locations == Replaced(old(store.locations), MisboundRow(req))
    // with every stored id defined, the handler leaves the locations untouched
    ensures IdsDefined(old(store.locations)) ==> store.locations == old(store.locations)
  {
    if req.Unreadable? {
      return Rejected(500, RecordFailure);
    }
    if Falsy(req.cartBarcode) || Falsy(req.locationCode) || Falsy(req.status) {
      return Rejected(400, MissingParameters);
    }
    var updateResult := store.Query(UpdateLocationByCode, [req.status, req.locationCode]);
    var _ := store.Query(InsertMovementLog, [req.cartBarcode, req.locationCode, req.status]);
    r := Recorded(RecordedMessage);
  }

  /** Recording "FULL" for the first seed location leaves its status "EMPTY". */
  lemma SeedMovementChangesNothing()
    ensures
      var rows := SeedLocations();
      var after := Replaced(rows, MisboundRow(MovementBody(Str("C1"), Str("U010101A1"), Str("FULL"))));
      after == rows && after[0].status == Str("EMPTY")
  {
  }

  /** An entry of the movement log the handler means to write. */
  datatype MovementEntry = MovementEntry(cartBarcode: JsValue, locationCode: JsValue, status: JsValue)

  /** The list with the status of the first row carrying `code` set to `status`; unchanged when there is none. */
  function SetStatus(rows: seq<Location>, code: JsValue, status: JsValue): (r: seq<Location>)
    ensures |r| == |rows|
    ensures forall i :: 0 <= i < |rows| && i != IndexOfId(rows, code) ==> r[i] == rows[i]
    ensures IndexOfId(rows, code) >= 0 ==>
      r[IndexOfId(rows, code)] == rows[IndexOfId(rows, code)].(status := status)
    ensures IndexOfId(rows, code) == -1 ==> r == rows
  {
    var k := IndexOfId(rows, code);
    if k == -1 then rows else rows[k := rows[k].(status := status)]
  }

  /**
   * The movement as the handler means it: the location's status becomes the
   * recorded status, and one entry is appended to the movement log.
   */
  function IntendedRecord(rows: seq<Location>, log: seq<MovementEntry>, req: MovementRequest)
    : (result: (seq<Location>, seq<MovementEntry>))
    requires Complete(req)
    ensures |result.0| == |rows|
    ensures result.1 == log + [MovementEntry(req.cartBarcode, req.locationCode, req.status)]
    ensures forall i :: 0 <= i < |rows| ==>
      result.0[i].id == rows[i].id && result.0[i].size == rows[i].size
    ensures forall i :: 0 <= i < |rows| && i != IndexOfId(rows, req.locationCode) ==> result.0[i] == rows[i]
    ensures IndexOfId(rows, req.locationCode) == -1 ==> result.0 == rows
    ensures (exists i :: 0 <= i < |rows| && rows[i].id == req.locationCode) ==>
      LookupId(result.0, req.locationCode).Some? &&
      LookupId(result.0, req.locationCode).value.status == req.status
  {
    SetStatusFound(rows, req.locationCode, req.status);
    (SetStatus(rows, req.locationCode, req.status), log + [MovementEntry(req.cartBarcode, req.locationCode, req.status)])
  }

  /** After SetStatus, looking up a present code finds its row with the new status and its size kept. */
  lemma SetStatusFound(rows: seq<Location>, code: JsValue, status: JsValue)
    ensures (exists i :: 0 <= i < |rows| && rows[i].id == code) ==>
      LookupId(SetStatus(rows, code, status), code) == Some(LookupId(rows, code).value.(status := status))
  {
    var next := SetStatus(rows, code, status);
    var k := IndexOfId(rows, code);
    if k != -1 {
      assert next[k].id == code;
      assert forall i :: 0 <= i < k ==> next[i] == rows[i];
    }
  }

  /**
   * Two movements for one location leave two log entries, and the location
   * carries the second movement's status.
   */
  lemma IntendedTwoMovements(rows: seq<Location>, log: seq<MovementEntry>, first: MovementRequest, second: MovementRequest)
    requires Complete(first) && Complete(second) && first.locationCode == second.locationCode
    requires exists i :: 0 <= i < |rows| && rows[i].id == first.locationCode
    ensures
      var (rows1, log1) := IntendedRecord(rows, log, first);
      var (rows2, log2) := IntendedRecord(rows1, log1, second);
      |log2| == |log| + 2 && LookupId(rows2, second.locationCode).Some? &&
      LookupId(rows2, second.locationCode).value.status == second.status
  {
    var (rows1, log1) := IntendedRecord(rows, log, first);
    var i :| 0 <= i < |rows| && rows[i].id == first.locationCode;
    assert rows1[i].id == first.locationCode;
  }

  /**
   * Create "U010101A1" as small and empty on a list without it, record a
   * movement to "FULL" from cart "C1": the lookup shows "FULL" and the log
   * holds that one movement.
   */
  lemma IntendedScenario(rows: seq<Location>)
    requires forall i :: 0 <= i < |rows| ==> rows[i].id != Str("U010101A1")
    ensures
      var created := rows + [Location(Str("U010101A1"), Str("SMALL"), Str("EMPTY"))];
      var req := MovementBody(Str("C1"), Str("U010101A1"), Str("FULL"));
      var (after, log) := IntendedRecord(created, [], req);
      LookupId(after, Str("U010101A1")).Some? &&
      LookupId(after, Str("U010101A1")).value.status == Str("FULL") &&
      log == [MovementEntry(Str("C1"), Str("U010101A1"), Str("FULL"))]
  {
    var created := rows + [Location(Str("U010101A1"), Str("SMALL"), Str("EMPTY"))];
    assert created[|rows|].id == Str("U010101A1");
  }
}
