/** The database as the update handler uses it: how the pg driver binds
    JavaScript values as parameters, the users and medicines tables, the
    parameterised UPDATE the handler builds and what it does to the
    medicines table, and the client through which every query goes. */
module Sql {
  import opened JsValues

  /** A bound query parameter or a column value. */
  datatype SqlValue = SqlNull | SqlText(text: string)

  /** The driver's binding of a parameter: `undefined` and `null` become SQL
      NULL, every other value is sent as its text. */
  function Bind(v: JsValue): SqlValue {
    match v
    case Undefined => SqlNull
    case Null => SqlNull
    case Bool(b) => SqlText(if b then "true" else "false")
    case Num(n) => SqlText(IntText(n))
    case Str(s) => SqlText(s)
    case Composite(t) => SqlText(t)
  }

  /** The driver's binding of a whole parameter list, one for one. */
  function BindAll(vs: seq<JsValue>): seq<SqlValue> {
    seq(|vs|, i requires 0 <= i < |vs| => Bind(vs[i]))
  }

  /** Exactly `undefined` and `null` are sent as SQL NULL: a missing
      credential or id reaches the server as NULL, and every other value as text. */
  lemma BindNull(v: JsValue)
    ensures Bind(v) == SqlNull <==> v in {Undefined, Null}
  {
  }

  /** A row of the medicines table. The id is held as its text, the form in
      which a bound parameter is compared with it. */
  datatype Medicine = Medicine(
    id: string,
    userCredential: string,
    medicineName: SqlValue,
    measurementType: SqlValue,
    quantity: SqlValue,
    description: SqlValue,
    dateOfEntry: SqlValue,
    dateOfUpdate: SqlValue,
    dateOfExpiry: SqlValue)

  /** The users table, by credential, and the medicines table, by id. */
  datatype Tables = Tables(users: set<string>, medicines: map<string, Medicine>)

  /** Every row is stored under its own id and is owned by a known user. */
  predicate ValidTables(t: Tables) {
    forall k :: k in t.medicines ==>
      t.medicines[k].id == k && t.medicines[k].userCredential in t.users
  }

  /** `SELECT * FROM users WHERE user_credential = $1` finds a row.
      NULL equals nothing. */
  predicate UserExists(users: set<string>, credential: SqlValue) {
    credential.SqlText? && credential.text in users
  }

  /** `SELECT * FROM medicines WHERE id = $1 AND user_credential = $2` finds a row. */
  predicate Owns(medicines: map<string, Medicine>, id: SqlValue, credential: SqlValue) {
    id.SqlText? && id.text in medicines && credential == SqlText(medicines[id.text].userCredential)
  }

  /** A NULL parameter matches no row: no user has the NULL credential, and
      no record has a NULL id or a NULL owner. */
  lemma NullMatchesNothing(users: set<string>, medicines: map<string, Medicine>, v: SqlValue)
    ensures !UserExists(users, SqlNull)
    ensures !Owns(medicines, SqlNull, v) && !Owns(medicines, v, SqlNull)
  {
  }

  /** The columns the handler may change. */
  datatype Column = Quantity | Description | DateOfExpiry

  function ColumnName(c: Column): string {
    match c
    case Quantity => "quantity"
    case Description => "description"
    case DateOfExpiry => "date_of_expiry"
  }

  function Get(m: Medicine, c: Column): SqlValue {
    match c
    case Quantity => m.quantity
    case Description => m.description
    case DateOfExpiry => m.dateOfExpiry
  }

  /** The two rows agree on every column the handler may not change. */
  predicate SameFixedColumns(m: Medicine, m': Medicine) {
    && m'.id == m.id
    && m'.userCredential == m.userCredential
    && m'.medicineName == m.medicineName
    && m'.measurementType == m.measurementType
    && m'.dateOfEntry == m.dateOfEntry
    && m'.dateOfUpdate == m.dateOfUpdate
  }

  /** Assigning one column changes that column and nothing else. */
  function Set(m: Medicine, c: Column, v: SqlValue): (m': Medicine)
    ensures Get(m', c) == v
    ensures forall c' :: c' != c ==> Get(m', c') == Get(m, c')
    ensures SameFixedColumns(m, m')
  {
    match c
    case Quantity => m.(quantity := v)
    case Description => m.(description := v)
    case DateOfExpiry => m.(dateOfExpiry := v)
  }

  /** `column = $slot` */
  datatype SetClause = SetClause(column: Column, slot: nat)

  /** `UPDATE medicines SET <sets> WHERE id = $<whereSlot> RETURNING *;` */
  datatype UpdateStatement = UpdateStatement(sets: seq<SetClause>, whereSlot: nat)

  function ClauseText(c: SetClause): string {
    ColumnName(c.column) + " = $" + NatText(c.slot)
  }

  /** `updateFields.join(', ')` */
  function JoinClauses(cs: seq<SetClause>): string {
    if cs == [] then ""
    else if |cs| == 1 then ClauseText(cs[0])
    else ClauseText(cs[0]) + ", " + JoinClauses(cs[1..])
  }

  /** The text of a non-empty SET list starts with its first column's name,
      so it is never empty and the statement never reads `SET  WHERE`. */
  lemma NonEmptyJoin(cs: seq<SetClause>)
    requires |cs| >= 1
    ensures JoinClauses(cs) != ""
    ensures |ColumnName(cs[0].column)| <= |JoinClauses(cs)| && JoinClauses(cs)[..|ColumnName(cs[0].column)|] == ColumnName(cs[0].column)
  {
  }

  /** The text of the statement as sent to the server. */
  function StatementText(st: UpdateStatement): string {
    "UPDATE medicines SET" + " " + JoinClauses(st.sets) + " WHERE id = $" + NatText(st.whereSlot) + " RETURNING *;"
  }

  /** The placeholders of `st` are $1 .. $n, with $n among them. */
  predicate ParamsMatch(st: UpdateStatement, n: nat) {
    && 1 <= st.whereSlot <= n
    && (forall i :: 0 <= i < |st.sets| ==> 1 <= st.sets[i].slot <= n)
    && (st.whereSlot == n || exists i :: 0 <= i < |st.sets| && st.sets[i].slot == n)
  }

  predicate DistinctColumns(sets: seq<SetClause>) {
    forall i, j :: 0 <= i < j < |sets| ==> sets[i].column != sets[j].column
  }

  /** The SET list applied left to right to one row. */
  function AssignAll(m: Medicine, sets: seq<SetClause>, params: seq<SqlValue>): (m': Medicine)
    requires forall i :: 0 <= i < |sets| ==> 1 <= sets[i].slot <= |params|
    ensures SameFixedColumns(m, m')
    decreases |sets|
  {
    if sets == [] then m
    else AssignAll(Set(m, sets[0].column, params[sets[0].slot - 1]), sets[1..], params)
  }

  /** What the server answers to an UPDATE: the new medicines table and the
      rows RETURNING gives back, or an error. */
  datatype ExecResult =
    | Executed(medicines: map<string, Medicine>, rows: seq<Medicine>)
    | SqlError(message: string)

  const SyntaxError := "syntax error at or near \"WHERE\""
  const ParameterCountError := "bind message supplies the wrong number of parameters"
  const DuplicateColumnError := "multiple assignments to same column"

  /** The effect of the UPDATE on the medicines table. An empty SET list is a
      syntax error; the parameters must match the placeholders; a column may
      be assigned once. The row whose id equals the WHERE parameter, if any,
      gets the SET list; no other row changes. */
  function ExecuteUpdate(medicines: map<string, Medicine>, st: UpdateStatement, params: seq<SqlValue>): (r: ExecResult)
    ensures r.SqlError? <==> st.sets == [] || !ParamsMatch(st, |params|) || !DistinctColumns(st.sets)
    ensures r.Executed? ==> |r.rows| <= 1 && r.medicines.Keys == medicines.Keys
    ensures r.Executed? ==> forall k :: k in medicines && SqlText(k) != params[st.whereSlot - 1] ==>
      r.medicines[k] == medicines[k]
    ensures r.Executed? && r.rows != [] ==>
      (params[st.whereSlot - 1].SqlText? &&
       var k := params[st.whereSlot - 1].text;
       k in medicines && r.rows == [r.medicines[k]] && SameFixedColumns(medicines[k], r.medicines[k]))
    ensures r.Executed? && r.rows == [] ==> r.medicines == medicines
  {
    if st.sets == [] then SqlError(SyntaxError)
    else if !ParamsMatch(st, |params|) then SqlError(ParameterCountError)
    else if !DistinctColumns(st.sets) then SqlError(DuplicateColumnError)
    else
      var key := params[st.whereSlot - 1];
      if key.SqlText? && key.text in medicines then
        var row := AssignAll(medicines[key.text], st.sets, params);
        Executed(medicines[key.text := row], [row])
      else
        Executed(medicines, [])
  }

  /** What the client sends to the server, in order. */
  datatype Event =
    | Opened
    | UserQuery(credential: SqlValue)
    | MedicineQuery(id: SqlValue, credential: SqlValue)
    | UpdateQuery(statement: UpdateStatement, params: seq<SqlValue>)
    | Closed

  /** The database as seen through one request's pg client: the two tables,
      whether the client is connected, and (ghost) every event sent so far. */
  class Database {
    var users: set<string>
    var medicines: map<string, Medicine>
    var connected: bool
    ghost var log: seq<Event>

    function State(): Tables
      reads this
    {
      Tables(users, medicines)
    }

    constructor (t: Tables)
      ensures State() == t && !connected && log == []
    {
      users := t.users;
      medicines := t.medicines;
      connected := false;
      log := [];
    }

    /** `client.connect()` */
    method Connect()
      requires !connected
      modifies this
      ensures connected && State() == old(State()) && log == old(log) + [Opened]
    {
      connected := true;
      log := log + [Opened];
    }

    /** `client.end()` */
    method End()
      requires connected
      modifies this
      ensures !connected && State() == old(State()) && log == old(log) + [Closed]
    {
      connected := false;
      log := log + [Closed];
    }

    /** The credential query; returns its rowCount (credentials are unique). */
    method SelectUser(credential: JsValue) returns (rowCount: nat)
      requires connected
      modifies this`log
      ensures rowCount == if UserExists(users, Bind(credential)) then 1 else 0
      ensures log == old(log) + [UserQuery(Bind(credential))]
    {
      log := log + [UserQuery(Bind(credential))];
      rowCount := if UserExists(users, Bind(credential)) then 1 else 0;
    }

    /** The record query by (id, credential); returns its rowCount (ids are unique). */
    method SelectMedicine(id: JsValue, credential: JsValue) returns (rowCount: nat)
      requires connected
      modifies this`log
      ensures rowCount == if Owns(medicines, Bind(id), Bind(credential)) then 1 else 0
      ensures log == old(log) + [MedicineQuery(Bind(id), Bind(credential))]
    {
      log := log + [MedicineQuery(Bind(id), Bind(credential))];
      rowCount := if Owns(medicines, Bind(id), Bind(credential)) then 1 else 0;
    }

    /** `client.query(query, values)` for the UPDATE. */
    method Update(st: UpdateStatement, values: seq<JsValue>) returns (r: ExecResult)
      requires connected
      modifies this`medicines, this`log
      ensures r == ExecuteUpdate(old(medicines), st, BindAll(values))
      ensures medicines == if r.Executed? then r.medicines else old(medicines)
      ensures log == old(log) + [UpdateQuery(st, BindAll(values))]
    {
      log := log + [UpdateQuery(st, BindAll(values))];
      r := ExecuteUpdate(medicines, st, BindAll(values));
      if r.Executed? {
        medicines := r.medicines;
      }
    }
  }
}
