/** The partial-update handler for one medicine record: the guarded early
    exits, the SET-clause builder and the UPDATE it sends. `Handle` and
    `Attempt` state what a request does; `Handler`, `AttemptUpdate` and
    `BuildUpdate` do it step by step, as the handler's code does. */
module UpdateMedicine {
  import opened JsValues
  import opened DateFormat
  import opened Sql

  /** The parsed request body; a key that is absent reads as Undefined. */
  datatype Body = Body(
    id: JsValue,
    userCredential: JsValue,
    quantity: JsValue,
    description: JsValue,
    dateOfExpiry: JsValue)

  datatype ResponseBody =
    | ErrorBody(error: string)
    | InternalErrorBody(error: string, message: string)
    | UpdatedBody(message: string, medicine: Medicine)

  datatype Response = Response(statusCode: int, body: ResponseBody)

  const MethodNotAllowed := Response(405, ErrorBody("Method Not Allowed. Please use POST."))
  const NoUpdatableField :=
    Response(400, ErrorBody("At least one field (quantity, description, date_of_expiry) is required to update"))
  const InvalidCredential := Response(400, ErrorBody("Invalid user credential"))
  const RecordNotFound := Response(404, ErrorBody("Medicine not found or does not belong to the specified user"))
  const InvalidDateFormat := Response(400, ErrorBody("Invalid date format. Please use DD-MM-YYYY."))
  const UpdateFailed := Response(404, ErrorBody("Medicine not found or update failed"))

  /** The catch-all answer; it passes the error's message on to the caller. */
  function InternalError(message: string): Response {
    Response(500, InternalErrorBody("Internal server error", message))
  }

  function Updated(m: Medicine): Response {
    Response(200, UpdatedBody("Medicine updated successfully", m))
  }

  /** The guard `!quantity && !description && !date_of_expiry` lets the request through. */
  predicate AnyUpdatableField(b: Body) {
    Truthy(b.quantity) || Truthy(b.description) || Truthy(b.dateOfExpiry)
  }

  /** `formattedExpiryDate` once the conversion has not thrown: null when no
      expiry date was supplied, the converted string otherwise. */
  function FormattedExpiry(dateOfExpiry: JsValue): JsValue {
    if Truthy(dateOfExpiry) && dateOfExpiry.Str? then Str(ConvertDateFormat(dateOfExpiry.s)) else Null
  }

  /** The value the request supplies for a column. */
  function FieldValue(c: Column, quantity: JsValue, description: JsValue, expiry: JsValue): JsValue {
    match c
    case Quantity => quantity
    case Description => description
    case DateOfExpiry => expiry
  }

  /** One step of the builder on the clauses and values so far: when the
      field's value is truthy, append `column = $n`, n one past the clauses
      already there, and append the value. */
  function Push(fields: seq<SetClause>, values: seq<JsValue>, c: Column, v: JsValue): (seq<SetClause>, seq<JsValue>) {
    if Truthy(v) then (fields + [SetClause(c, |fields| + 1)], values + [v]) else (fields, values)
  }

  /** The statement and the parameter list the builder produces: a step for
      quantity, description and expiry in that order, then the id bound to
      the next placeholder in the WHERE clause. What this amounts to (one
      numbered clause per truthy field, each bound to its own value) is
      proved in UpdateProperties.PlanPositions, PlanNumbered and PlanColumns. */
  function UpdatePlan(id: JsValue, quantity: JsValue, description: JsValue, expiry: JsValue)
    : (UpdateStatement, seq<JsValue>)
  {
    var afterQuantity := Push([], [], Quantity, quantity);
    var afterDescription := Push(afterQuantity.0, afterQuantity.1, Description, description);
    var afterExpiry := Push(afterDescription.0, afterDescription.1, DateOfExpiry, expiry);
    (UpdateStatement(afterExpiry.0, |afterExpiry.0| + 1), afterExpiry.1 + [id])
  }

  /** The row after the update the request asks for: each supplied column
      replaced by its bound value, every other column as it was. */
  function Patched(m: Medicine, quantity: JsValue, description: JsValue, expiry: JsValue): Medicine {
    m.(quantity := if Truthy(quantity) then Bind(quantity) else m.quantity,
       description := if Truthy(description) then Bind(description) else m.description,
       dateOfExpiry := if Truthy(expiry) then Bind(expiry) else m.dateOfExpiry)
  }

  /** A response, the tables afterwards, and what was sent to the server. */
  datatype Outcome = Outcome(response: Response, tables: Tables, trace: seq<Event>)

  /** The `try` block, run on an open connection: credential check, record
      lookup by (id, credential), date conversion, then the UPDATE. */
  function Attempt(body: Body, t: Tables): Outcome {
    var credential := Bind(body.userCredential);
    var userQuery := [UserQuery(credential)];
    if !UserExists(t.users, credential) then Outcome(InvalidCredential, t, userQuery)
    else
      var id := Bind(body.id);
      var lookup := userQuery + [MedicineQuery(id, credential)];
      if !Owns(t.medicines, id, credential) then Outcome(RecordNotFound, t, lookup)
      else if Truthy(body.dateOfExpiry) && !body.dateOfExpiry.Str? then
        // `date_of_expiry.split` is not a function: the TypeError is caught
        Outcome(InvalidDateFormat, t, lookup)
      else
        var u := UpdateOutcome(body.id, body.quantity, body.description, FormattedExpiry(body.dateOfExpiry), t);
        Outcome(u.response, u.tables, lookup + u.trace)
  }

  /** The last part of the `try` block: build the UPDATE, send it, and answer
      500 with the error's message if it fails, 404 if it returns no row,
      200 with the returned row otherwise. */
  function UpdateOutcome(id: JsValue, quantity: JsValue, description: JsValue, expiry: JsValue, t: Tables): Outcome {
    var plan := UpdatePlan(id, quantity, description, expiry);
    var params := BindAll(plan.1);
    var trace := [UpdateQuery(plan.0, params)];
    match ExecuteUpdate(t.medicines, plan.0, params)
    case SqlError(message) => Outcome(InternalError(message), t, trace)
    case Executed(medicines, rows) =>
      Outcome(if rows == [] then UpdateFailed else Updated(rows[0]), t.(medicines := medicines), trace)
  }

  /** The whole request: the method check and the field check come before
      any connection; after them the connection is opened, the `try` block
      runs, and the connection is closed whatever the block returned. */
  function Handle(httpMethod: string, body: Body, t: Tables): Outcome {
    if httpMethod != "POST" then Outcome(MethodNotAllowed, t, [])
    else if !AnyUpdatableField(body) then Outcome(NoUpdatableField, t, [])
    else
      var a := Attempt(body, t);
      Outcome(a.response, a.tables, [Opened] + a.trace + [Closed])
  }

  /** One step of the builder, as the handler's code takes it. */
  method PushIfTruthy(updateFields: seq<SetClause>, values: seq<JsValue>, c: Column, v: JsValue)
    returns (updateFields': seq<SetClause>, values': seq<JsValue>)
    ensures (updateFields', values') == Push(updateFields, values, c, v)
  {
    updateFields', values' := updateFields, values;
    if Truthy(v) {
      updateFields' := updateFields' + [SetClause(c, |updateFields'| + 1)];
      values' := values' + [v];
    }
  }

  /** The builder: pushes one clause and one value per truthy field, in the
      order quantity, description, expiry, numbering each placeholder by the
      current length of the clause list, then binds the id to the next
      placeholder in the WHERE clause. The text sent is StatementText(statement). */
  method BuildUpdate(id: JsValue, quantity: JsValue, description: JsValue, formattedExpiryDate: JsValue)
    returns (statement: UpdateStatement, values: seq<JsValue>)
    ensures (statement, values) == UpdatePlan(id, quantity, description, formattedExpiryDate)
  {
    values := [];
    var updateFields: seq<SetClause> := [];
    updateFields, values := PushIfTruthy(updateFields, values, Quantity, quantity);
    updateFields, values := PushIfTruthy(updateFields, values, Description, description);
    updateFields, values := PushIfTruthy(updateFields, values, DateOfExpiry, formattedExpiryDate);
    values := values + [id];
    statement := UpdateStatement(updateFields, |updateFields| + 1);
  }

  /** The `try` block on an open connection. */
  method AttemptUpdate(body: Body, db: Database) returns (response: Response)
    requires db.connected
    modifies db`medicines, db`log
    ensures var o := Attempt(body, old(db.State()));
      response == o.response && db.State() == o.tables && db.log == old(db.log) + o.trace
  {
    var userCredentialValid := false;
    var userRows := db.SelectUser(body.userCredential);
    if userRows == 0 {
      return InvalidCredential;
    }
    userCredentialValid := true;

    var medicineRows := db.SelectMedicine(body.id, body.userCredential);
    if medicineRows == 0 {
      return RecordNotFound;
    }

    var formattedExpiryDate := Null;
    if Truthy(body.dateOfExpiry) {
      if !body.dateOfExpiry.Str? {
        // only a string has `split`; the TypeError is caught here
        return InvalidDateFormat;
      }
      formattedExpiryDate := Str(ConvertDateFormat(body.dateOfExpiry.s));
    }

    response := SendUpdate(body.id, body.quantity, body.description, formattedExpiryDate, db);
  }

  /** Builds the UPDATE, sends it, and turns its result into the answer. */
  method SendUpdate(id: JsValue, quantity: JsValue, description: JsValue, formattedExpiryDate: JsValue, db: Database)
    returns (response: Response)
    requires db.connected
    modifies db`medicines, db`log
    ensures var o := UpdateOutcome(id, quantity, description, formattedExpiryDate, old(db.State()));
      response == o.response && db.State() == o.tables && db.log == old(db.log) + o.trace
  {
    var statement, values := BuildUpdate(id, quantity, description, formattedExpiryDate);
    var result := db.Update(statement, values);
    if result.SqlError? {
      return InternalError(result.message);
    }
    if |result.rows| == 0 {
      return UpdateFailed;
    }
    return Updated(result.rows[0]);
  }

  /** `handler(event)` with the fresh client it creates: not connected, and
      nothing sent through it yet. */
  method Handler(httpMethod: string, body: Body, db: Database) returns (response: Response)
    requires !db.connected && db.log == []
    modifies db
    ensures !db.connected
    ensures var o := Handle(httpMethod, body, old(db.State()));
      response == o.response && db.State() == o.tables && db.log == o.trace
  {
    if httpMethod != "POST" {
      return MethodNotAllowed;
    }
    if !Truthy(body.quantity) && !Truthy(body.description) && !Truthy(body.dateOfExpiry) {
      return NoUpdatableField;
    }
    db.Connect();
    response := AttemptUpdate(body, db);
    db.End();
  }
}
