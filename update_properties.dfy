/** What the update handler guarantees: the shape of the statement the
    builder produces, the row the UPDATE leaves behind, and the outcome of
    each guarded exit. */
module UpdateProperties {
  import opened JsValues
  import opened DateFormat
  import opened Sql
  import opened UpdateMedicine

  /** Some clause of the SET list assigns column `c`. */
  predicate Names(sets: seq<SetClause>, c: Column)
    decreases |sets|
  {
    sets != [] && (sets[0].column == c || Names(sets[1..], c))
  }

  /** `Names` holds exactly when some position of the list holds a clause for `c`. */
  lemma {:induction false} NamesAt(sets: seq<SetClause>, c: Column, i: nat)
    requires i < |sets| && sets[i].column == c
    ensures Names(sets, c)
    decreases i
  {
    if i > 0 {
      NamesAt(sets[1..], c, i - 1);
    }
  }

  lemma {:induction false} NamedAt(sets: seq<SetClause>, c: Column) returns (i: nat)
    requires Names(sets, c)
    ensures i < |sets| && sets[i].column == c
    decreases |sets|
  {
    if sets[0].column == c {
      i := 0;
    } else {
      var j := NamedAt(sets[1..], c);
      i := j + 1;
    }
  }

  function Count(b: bool): nat {
    if b then 1 else 0
  }

  // ----- the builder -----

  /** Where each field lands in the plan: a truthy field's clause comes
      after one clause for each truthy field before it in the order
      quantity, description, date_of_expiry, and its placeholder is its
      position counted from 1; its value sits at the same position. The
      SET list has one clause per truthy field, and the id is bound last, to
      the WHERE placeholder. */
  lemma PlanPositions(id: JsValue, quantity: JsValue, description: JsValue, expiry: JsValue)
    ensures var plan := UpdatePlan(id, quantity, description, expiry);
      var atQuantity, atDescription := 0, Count(Truthy(quantity));
      var atExpiry := atDescription + Count(Truthy(description));
      var k := atExpiry + Count(Truthy(expiry));
      && |plan.0.sets| == k && |plan.1| == k + 1 && plan.1[k] == id && plan.0.whereSlot == k + 1
      && (Truthy(quantity) ==>
            plan.0.sets[atQuantity] == SetClause(Quantity, atQuantity + 1) && plan.1[atQuantity] == quantity)
      && (Truthy(description) ==>
            plan.0.sets[atDescription] == SetClause(Description, atDescription + 1) && plan.1[atDescription] == description)
      && (Truthy(expiry) ==>
            plan.0.sets[atExpiry] == SetClause(DateOfExpiry, atExpiry + 1) && plan.1[atExpiry] == expiry)
  {
  }

  /** Every clause of the plan is `column = $i` at position i (from 1) and
      its value is the truthy value of its own column. */
  lemma PlanNumbered(id: JsValue, quantity: JsValue, description: JsValue, expiry: JsValue)
    ensures var plan := UpdatePlan(id, quantity, description, expiry);
      && |plan.1| == |plan.0.sets| + 1
      && forall i :: 0 <= i < |plan.0.sets| ==>
        && plan.0.sets[i].slot == i + 1
        && plan.1[i] == FieldValue(plan.0.sets[i].column, quantity, description, expiry)
        && Truthy(plan.1[i])
  {
    PlanPositions(id, quantity, description, expiry);
  }

  /** A column has a clause in the plan exactly when its value is truthy. */
  lemma PlanColumns(id: JsValue, quantity: JsValue, description: JsValue, expiry: JsValue, c: Column)
    ensures Names(UpdatePlan(id, quantity, description, expiry).0.sets, c) <==>
      Truthy(FieldValue(c, quantity, description, expiry))
  {
    var sets := UpdatePlan(id, quantity, description, expiry).0.sets;
    PlanPositions(id, quantity, description, expiry);
    if Names(sets, c) {
      var i := NamedAt(sets, c);
      PlanNumbered(id, quantity, description, expiry);
    }
    if Truthy(FieldValue(c, quantity, description, expiry)) {
      var at := match c
        case Quantity => 0
        case Description => Count(Truthy(quantity))
        case DateOfExpiry => Count(Truthy(quantity)) + Count(Truthy(description));
      NamesAt(sets, c, at);
    }
  }

  /** The plan's statement has the parameters it needs and assigns no column twice. */
  lemma PlanWellFormed(id: JsValue, quantity: JsValue, description: JsValue, expiry: JsValue)
    ensures var plan := UpdatePlan(id, quantity, description, expiry);
      ParamsMatch(plan.0, |plan.1|) && DistinctColumns(plan.0.sets)
  {
    PlanPositions(id, quantity, description, expiry);
  }

  /** Whenever the builder is reached, the SET list is not empty: the guard
      let through some truthy field, and a supplied expiry date converts to a
      string that is never empty. */
  lemma BuilderNeverEmpty(body: Body)
    requires AnyUpdatableField(body)
    requires !Truthy(body.dateOfExpiry) || body.dateOfExpiry.Str?
    ensures |UpdatePlan(body.id, body.quantity, body.description, FormattedExpiry(body.dateOfExpiry)).0.sets| >= 1
    ensures JoinClauses(UpdatePlan(body.id, body.quantity, body.description, FormattedExpiry(body.dateOfExpiry)).0.sets) != ""
  {
    var expiry := FormattedExpiry(body.dateOfExpiry);
    if Truthy(body.dateOfExpiry) {
      assert Truthy(expiry);
    }
    PlanPositions(body.id, body.quantity, body.description, expiry);
    NonEmptyJoin(UpdatePlan(body.id, body.quantity, body.description, expiry).0.sets);
  }

  // ----- the effect of the UPDATE -----

  /** Every placeholder of the SET list is bound to the value of its own column. */
  predicate BoundToFields(sets: seq<SetClause>, params: seq<SqlValue>, quantity: JsValue, description: JsValue, expiry: JsValue)
    decreases |sets|
  {
    sets == [] ||
      (&& 1 <= sets[0].slot <= |params|
       && params[sets[0].slot - 1] == Bind(FieldValue(sets[0].column, quantity, description, expiry))
       && BoundToFields(sets[1..], params, quantity, description, expiry))
  }

  lemma {:induction false} BoundFromIndexed(sets: seq<SetClause>, params: seq<SqlValue>,
                                            quantity: JsValue, description: JsValue, expiry: JsValue)
    requires forall i :: 0 <= i < |sets| ==>
      && 1 <= sets[i].slot <= |params|
      && params[sets[i].slot - 1] == Bind(FieldValue(sets[i].column, quantity, description, expiry))
    ensures BoundToFields(sets, params, quantity, description, expiry)
    decreases |sets|
  {
    if sets != [] {
      BoundFromIndexed(sets[1..], params, quantity, description, expiry);
    }
  }

  /** Applying a SET list whose every placeholder is bound to the value of its
      own column: a column the list names takes that value, any other keeps its own. */
  lemma {:induction false} AssignAllSupplied(m: Medicine, sets: seq<SetClause>, params: seq<SqlValue>,
                                             quantity: JsValue, description: JsValue, expiry: JsValue, c: Column)
    requires forall i :: 0 <= i < |sets| ==> 1 <= sets[i].slot <= |params|
    requires BoundToFields(sets, params, quantity, description, expiry)
    ensures Get(AssignAll(m, sets, params), c) ==
      if Names(sets, c) then Bind(FieldValue(c, quantity, description, expiry)) else Get(m, c)
    decreases |sets|
  {
    if sets != [] {
      var first := sets[0].column;
      var m' := Set(m, first, params[sets[0].slot - 1]);
      assert AssignAll(m, sets, params) == AssignAll(m', sets[1..], params);
      AssignAllSupplied(m', sets[1..], params, quantity, description, expiry, c);
    }
  }

  /** Two rows that agree on the fixed columns and on the three updatable ones are equal. */
  lemma RowsEqual(a: Medicine, b: Medicine)
    requires SameFixedColumns(a, b)
    requires Get(a, Quantity) == Get(b, Quantity)
    requires Get(a, Description) == Get(b, Description)
    requires Get(a, DateOfExpiry) == Get(b, DateOfExpiry)
    ensures a == b
  {
  }

  /** `Patched` replaces exactly the supplied columns: id, owner and every
      other column, date_of_update included, are kept. */
  lemma PatchedChangesOnlySupplied(m: Medicine, quantity: JsValue, description: JsValue, expiry: JsValue)
    ensures SameFixedColumns(m, Patched(m, quantity, description, expiry))
    ensures forall c :: Get(Patched(m, quantity, description, expiry), c) ==
                        (if Truthy(FieldValue(c, quantity, description, expiry))
                         then Bind(FieldValue(c, quantity, description, expiry)) else Get(m, c))
  {
  }

  /** The UPDATE the builder produces, run against a table holding the row
      its id names, rewrites that row as `Patched` and returns it, and leaves
      every other row alone. */
  lemma ExecutePlanPatches(medicines: map<string, Medicine>, id: JsValue,
                           quantity: JsValue, description: JsValue, expiry: JsValue)
    requires Bind(id).SqlText? && Bind(id).text in medicines
    requires Truthy(quantity) || Truthy(description) || Truthy(expiry)
    ensures var plan := UpdatePlan(id, quantity, description, expiry);
      var k := Bind(id).text;
      var row := Patched(medicines[k], quantity, description, expiry);
      ExecuteUpdate(medicines, plan.0, BindAll(plan.1)) == Executed(medicines[k := row], [row])
  {
    var (st, values) := UpdatePlan(id, quantity, description, expiry);
    var k := Bind(id).text;
    PlanPositions(id, quantity, description, expiry);
    PlanWellFormed(id, quantity, description, expiry);
    PlanAssigns(medicines[k], id, quantity, description, expiry);
  }

  /** The plan's SET list, applied to a row, gives each column the value of `Patched`. */
  lemma PlanAssignsColumn(m: Medicine, id: JsValue, quantity: JsValue, description: JsValue, expiry: JsValue, c: Column)
    ensures var plan := UpdatePlan(id, quantity, description, expiry);
      && (forall i :: 0 <= i < |plan.0.sets| ==> 1 <= plan.0.sets[i].slot <= |plan.1|)
      && Get(AssignAll(m, plan.0.sets, BindAll(plan.1)), c) == Get(Patched(m, quantity, description, expiry), c)
  {
    var (st, values) := UpdatePlan(id, quantity, description, expiry);
    PlanBindings(id, quantity, description, expiry);
    BoundFromIndexed(st.sets, BindAll(values), quantity, description, expiry);
    AssignAllSupplied(m, st.sets, BindAll(values), quantity, description, expiry, c);
    PlanColumns(id, quantity, description, expiry, c);
  }

  /** Each placeholder of the plan's SET list is bound to its own column's value. */
  lemma PlanBindings(id: JsValue, quantity: JsValue, description: JsValue, expiry: JsValue)
    ensures var plan := UpdatePlan(id, quantity, description, expiry);
      var params := BindAll(plan.1);
      forall i :: 0 <= i < |plan.0.sets| ==>
        && 1 <= plan.0.sets[i].slot <= |params|
        && params[plan.0.sets[i].slot - 1] == Bind(FieldValue(plan.0.sets[i].column, quantity, description, expiry))
  {
    var (st, values) := UpdatePlan(id, quantity, description, expiry);
    var params := BindAll(values);
    PlanNumbered(id, quantity, description, expiry);
    forall i | 0 <= i < |st.sets|
      ensures 1 <= st.sets[i].slot <= |params|
      ensures params[st.sets[i].slot - 1] == Bind(FieldValue(st.sets[i].column, quantity, description, expiry))
    {
      assert st.sets[i].slot - 1 == i;
      assert params[i] == Bind(values[i]);
    }
  }

  /** The plan's SET list, applied to a row, gives the row `Patched`. */
  lemma PlanAssigns(m: Medicine, id: JsValue, quantity: JsValue, description: JsValue, expiry: JsValue)
    ensures var plan := UpdatePlan(id, quantity, description, expiry);
      && (forall i :: 0 <= i < |plan.0.sets| ==> 1 <= plan.0.sets[i].slot <= |plan.1|)
      && AssignAll(m, plan.0.sets, BindAll(plan.1)) == Patched(m, quantity, description, expiry)
  {
    PlanAssignsColumn(m, id, quantity, description, expiry, Quantity);
    PlanAssignsColumn(m, id, quantity, description, expiry, Description);
    PlanAssignsColumn(m, id, quantity, description, expiry, DateOfExpiry);
    var (st, values) := UpdatePlan(id, quantity, description, expiry);
    RowsEqual(AssignAll(m, st.sets, BindAll(values)), Patched(m, quantity, description, expiry));
  }

  // ----- the guarded exits -----

  /** Any method other than POST is answered 405 before the body is read or
      the database is touched. */
  lemma MethodCheckedFirst(httpMethod: string, body: Body, t: Tables)
    requires httpMethod != "POST"
    ensures Handle(httpMethod, body, t) == Outcome(MethodNotAllowed, t, [])
  {
  }

  /** With quantity, description and date_of_expiry all falsy (absent, null,
      "", 0, false) the answer is 400 and no query is sent. */
  lemma FalsyFieldsRejected(body: Body, t: Tables)
    requires !Truthy(body.quantity) && !Truthy(body.description) && !Truthy(body.dateOfExpiry)
    ensures Handle("POST", body, t) == Outcome(NoUpdatableField, t, [])
  {
  }

  /** An unknown or missing credential is answered 400 after the users
      query alone: the medicines table is never queried nor changed. */
  lemma UnknownCredentialRejected(body: Body, t: Tables)
    requires AnyUpdatableField(body)
    requires !UserExists(t.users, Bind(body.userCredential))
    ensures Handle("POST", body, t) ==
      Outcome(InvalidCredential, t, [Opened, UserQuery(Bind(body.userCredential)), Closed])
  {
  }

  /** A body without user_credential (or with a null one) is answered 400:
      the credential is sent as NULL, which no user has. */
  lemma MissingCredentialRejected(body: Body, t: Tables)
    requires AnyUpdatableField(body)
    requires body.userCredential in {Undefined, Null}
    ensures Handle("POST", body, t) == Outcome(InvalidCredential, t, [Opened, UserQuery(SqlNull), Closed])
  {
    BindNull(body.userCredential);
    NullMatchesNothing(t.users, t.medicines, SqlNull);
    UnknownCredentialRejected(body, t);
  }

  /** A known user whose body has no id (or a null one) is answered 404:
      the id is sent as NULL, which names no record. */
  lemma MissingIdNotFound(body: Body, t: Tables)
    requires AnyUpdatableField(body)
    requires UserExists(t.users, Bind(body.userCredential))
    requires body.id in {Undefined, Null}
    ensures Handle("POST", body, t).response == RecordNotFound
    ensures Handle("POST", body, t).tables == t
  {
    BindNull(body.id);
    NullMatchesNothing(t.users, t.medicines, Bind(body.userCredential));
    UnownedRecordRejected(body, t);
  }

  /** A known credential with an id that names none of its records is
      answered 404 after the two lookups, and nothing changes. */
  lemma UnownedRecordRejected(body: Body, t: Tables)
    requires AnyUpdatableField(body)
    requires UserExists(t.users, Bind(body.userCredential))
    requires !Owns(t.medicines, Bind(body.id), Bind(body.userCredential))
    ensures Handle("POST", body, t) == Outcome(RecordNotFound, t,
      [Opened, UserQuery(Bind(body.userCredential)), MedicineQuery(Bind(body.id), Bind(body.userCredential)), Closed])
  {
  }

  /** An id that names no record and an id that names another owner's record
      get the same answer, so a caller cannot probe for other owners' ids. */
  lemma NotFoundHidesOwnership(body: Body, otherId: JsValue, t: Tables)
    requires AnyUpdatableField(body)
    requires UserExists(t.users, Bind(body.userCredential))
    requires Bind(body.id).SqlText? ==> Bind(body.id).text !in t.medicines
    requires Bind(otherId).SqlText? && Bind(otherId).text in t.medicines
    requires Bind(body.userCredential) != SqlText(t.medicines[Bind(otherId).text].userCredential)
    ensures Handle("POST", body, t).response == Handle("POST", body.(id := otherId), t).response == RecordNotFound
    ensures Handle("POST", body, t).tables == Handle("POST", body.(id := otherId), t).tables == t
  {
  }

  /** A truthy date_of_expiry that is not a string has no `split`: the
      conversion throws and the answer is 400, with nothing changed. */
  lemma NonStringExpiryRejected(body: Body, t: Tables)
    requires Truthy(body.dateOfExpiry) && !body.dateOfExpiry.Str?
    requires UserExists(t.users, Bind(body.userCredential))
    requires Owns(t.medicines, Bind(body.id), Bind(body.userCredential))
    ensures Handle("POST", body, t).response == InvalidDateFormat
    ensures Handle("POST", body, t).tables == t
  {
  }

  /** Past every guard the UPDATE succeeds: the answer is 200 with the
      located row rewritten as `Patched`, that row alone is stored anew, and
      the connection is closed after the single UPDATE. */
  lemma UpdateSucceeds(body: Body, t: Tables)
    requires AnyUpdatableField(body)
    requires UserExists(t.users, Bind(body.userCredential))
    requires Owns(t.medicines, Bind(body.id), Bind(body.userCredential))
    requires !Truthy(body.dateOfExpiry) || body.dateOfExpiry.Str?
    ensures var k := Bind(body.id).text;
      var row := Patched(t.medicines[k], body.quantity, body.description, FormattedExpiry(body.dateOfExpiry));
      var plan := UpdatePlan(body.id, body.quantity, body.description, FormattedExpiry(body.dateOfExpiry));
      Handle("POST", body, t) == Outcome(Updated(row), t.(medicines := t.medicines[k := row]),
        [Opened, UserQuery(Bind(body.userCredential)), MedicineQuery(Bind(body.id), Bind(body.userCredential)),
         UpdateQuery(plan.0, BindAll(plan.1)), Closed])
  {
    var expiry := FormattedExpiry(body.dateOfExpiry);
    if Truthy(body.dateOfExpiry) {
      assert Truthy(expiry);
    }
    ExecutePlanPatches(t.medicines, body.id, body.quantity, body.description, expiry);
  }

  // ----- consequences for every request -----

  /** Every answer is one of 200, 400, 404 or 405: the UPDATE the builder
      produces never fails in the database, and the row found by the lookup
      is always there to update. */
  lemma NoInternalErrorNoUpdateFailure(httpMethod: string, body: Body, t: Tables)
    ensures Handle(httpMethod, body, t).response.statusCode in {200, 400, 404, 405}
    ensures Handle(httpMethod, body, t).response != UpdateFailed
  {
    if httpMethod == "POST" && AnyUpdatableField(body) && UserExists(t.users, Bind(body.userCredential))
      && Owns(t.medicines, Bind(body.id), Bind(body.userCredential))
      && (!Truthy(body.dateOfExpiry) || body.dateOfExpiry.Str?)
    {
      UpdateSucceeds(body, t);
    }
  }

  /** Only the row the caller owns and names by id can change; the users
      table and the set of ids never change; a row's id, owner and other
      fixed columns never change; a changed quantity is a truthy one, so a
      quantity of 0 is never stored. */
  lemma OnlyOwnedRowChanges(httpMethod: string, body: Body, t: Tables)
    ensures var t' := Handle(httpMethod, body, t).tables;
      && t'.users == t.users
      && t'.medicines.Keys == t.medicines.Keys
      && forall k :: k in t.medicines && t'.medicines[k] != t.medicines[k] ==>
        && Bind(body.id) == SqlText(k)
        && Bind(body.userCredential) == SqlText(t.medicines[k].userCredential)
        && SameFixedColumns(t.medicines[k], t'.medicines[k])
        && (t'.medicines[k].quantity == t.medicines[k].quantity
            || (Truthy(body.quantity) && t'.medicines[k].quantity == Bind(body.quantity)))
  {
    if httpMethod == "POST" && AnyUpdatableField(body) && UserExists(t.users, Bind(body.userCredential))
      && Owns(t.medicines, Bind(body.id), Bind(body.userCredential))
      && (!Truthy(body.dateOfExpiry) || body.dateOfExpiry.Str?)
    {
      UpdateSucceeds(body, t);
    }
  }

  /** A request whose quantity is falsy (0 among them) leaves every stored quantity as it was. */
  lemma FalsyQuantityNeverStored(httpMethod: string, body: Body, t: Tables, k: string)
    requires !Truthy(body.quantity)
    requires k in t.medicines
    ensures k in Handle(httpMethod, body, t).tables.medicines
    ensures Handle(httpMethod, body, t).tables.medicines[k].quantity == t.medicines[k].quantity
  {
    OnlyOwnedRowChanges(httpMethod, body, t);
  }

  /** Every row stays under its own id and keeps an owner that is a known user. */
  lemma ValidTablesPreserved(httpMethod: string, body: Body, t: Tables)
    requires ValidTables(t)
    ensures ValidTables(Handle(httpMethod, body, t).tables)
  {
    OnlyOwnedRowChanges(httpMethod, body, t);
  }

  /** The connection is opened only after the two checks that need no
      database, and once opened it is closed last on every path. */
  lemma ConnectionAlwaysClosed(httpMethod: string, body: Body, t: Tables)
    ensures var tr := Handle(httpMethod, body, t).trace;
      || tr == []
      || (&& |tr| >= 3 && tr[0] == Opened && tr[|tr| - 1] == Closed
          && forall i :: 0 < i < |tr| - 1 ==> tr[i] != Opened && tr[i] != Closed)
    ensures Handle(httpMethod, body, t).trace == [] <==> httpMethod != "POST" || !AnyUpdatableField(body)
  {
  }

  /** The credential is checked before any record is looked up: the records
      query is only ever sent right after a users query that found the user. */
  lemma CredentialCheckedBeforeLookup(httpMethod: string, body: Body, t: Tables)
    ensures var tr := Handle(httpMethod, body, t).trace;
      forall i :: 0 <= i < |tr| && tr[i].MedicineQuery? ==>
        i >= 1 && tr[i - 1].UserQuery? && UserExists(t.users, tr[i - 1].credential)
  {
  }

  // ----- examples -----

  /** Record 7, owned by "abc": a request setting its quantity to 3 answers
      200 with the row holding quantity "3", every other column as it was. */
  lemma QuantityUpdateExample(row: Medicine, t: Tables)
    requires row.id == "7" && row.userCredential == "abc"
    requires t == Tables({"abc"}, map["7" := row])
    ensures var o := Handle("POST", Body(Num(7), Str("abc"), Num(3), Undefined, Undefined), t);
      && o.response == Updated(row.(quantity := SqlText("3")))
      && o.tables == Tables({"abc"}, map["7" := row.(quantity := SqlText("3"))])
  {
    var body := Body(Num(7), Str("abc"), Num(3), Undefined, Undefined);
    assert Bind(body.id) == SqlText("7");
    assert Bind(body.quantity) == SqlText("3");
    UpdateSucceeds(body, t);
  }

  /** An expiry date "31-02-2024" is stored as "2024-02-31": the conversion
      re-orders the parts and no one checks the calendar. */
  lemma ExpiryUpdateExample(row: Medicine, t: Tables, date: string)
    requires date == "31-02-2024"
    requires row.id == "7" && row.userCredential == "abc"
    requires t == Tables({"abc"}, map["7" := row])
    ensures var o := Handle("POST", Body(Str("7"), Str("abc"), Undefined, Undefined, Str(date)), t);
      && o.response.statusCode == 200
      && o.tables.medicines["7"] == row.(dateOfExpiry := SqlText("2024-02-31"))
  {
    var body := Body(Str("7"), Str("abc"), Undefined, Undefined, Str(date));
    ConvertExampleNoCalendarCheck(date);
    UpdateSucceeds(body, t);
  }
}
