# Partial update of a medicine record

This project models the update handler of a small medicine-tracking
service, `update-medicine-user.mjs`, and proves what it does. The handler is
an HTTP endpoint. A POST carries a record id, an owner credential and up to
three fields to change: `quantity`, `description` and `date_of_expiry`. It
works in this order:

- It rejects any method other than POST (405).
- It rejects a body in which all three fields are falsy (400).
- It opens a PostgreSQL connection.
- It checks that the credential belongs to a user (400 otherwise).
- It checks that the id names a record owned by that user (404 otherwise).
- It re-orders a supplied `DD-MM-YYYY` expiry date to `YYYY-MM-DD`. A
  thrown error there is answered 400.
- It builds an `UPDATE medicines SET ... WHERE id = $n RETURNING *`. The
  statement has one numbered placeholder per truthy field, in the order
  quantity, description, expiry, and the id is bound last.
- It sends the UPDATE and answers 404 if no row came back, 200 with the
  row otherwise, and 500 with the error's message if anything threw.
- It closes the connection in a `finally`.

The modules are:

- `JsValues` (`js_values.dfy`): the JavaScript values a parsed body can
  hold, JavaScript truthiness, and the decimal text of an integer.
- `DateFormat` (`date_format.dfy`): `split('-')`, the destructuring of its
  result into day, month and year, and `convertDateFormat`.
- `Sql` (`sql.dfy`):
  - how the pg driver binds a JavaScript value as a parameter;
  - the users and medicines tables;
  - the UPDATE statement as data (`UpdateStatement`) and as text
    (`StatementText`);
  - what the server does with the UPDATE (`ExecuteUpdate`);
  - a `Database` class for the pg client. Its fields are the two tables and
    the connection flag. A ghost field records every query the client sends.
- `UpdateMedicine` (`update_medicine.dfy`): the handler itself, in two forms.
  - Specification functions: `Handle` is the whole request, `Attempt` the
    `try` block, `UpdateOutcome` its last part, and `UpdatePlan` the
    statement and parameters the builder produces.
  - Imperative methods that follow the code step by step: `Handler`,
    `AttemptUpdate`, `SendUpdate`, `BuildUpdate` and `PushIfTruthy`. Each is
    proved to return the response, leave the tables and send the queries
    that its specification function gives.
- `UpdateProperties` (`update_properties.dfy`): what the handler
  guarantees. It covers:
  - the shape of the statement;
  - the row the UPDATE leaves behind;
  - every guarded exit;
  - the invariants of the tables;
  - the opening and closing of the connection;
  - the order of the queries.

The model follows the code, including where the code does less than a
careful partial update would:

- The code checks only that a date splits. A string such as `"1-2"`
  becomes `"undefined-2-1"` and `"31-02-2024"` becomes `"2024-02-31"`.
  There is no calendar check and no 400 for these inputs
  (`ConvertExampleTwoParts`, `ExpiryUpdateExample`). Only a truthy
  non-string date throws.
- `date_of_update` is never written (`PatchedChangesOnlySupplied`).
- The UPDATE is scoped by id alone, not by (id, owner). The ownership check
  happens in the earlier SELECT.
- The 500 answer passes `error.message` on to the caller.

## Model

| member | source | states |
|---|---|---|
| JsValues.FalsyValues | update-medicine-user.mjs:35 | a field fails the guard exactly when it is undefined, null, false, 0 or the empty string |
| JsValues.NatText | update-medicine-user.mjs:93 | the placeholder number written after `$` is a non-empty string of decimal digits with no leading zero |
| JsValues.IntText | update-medicine-user.mjs:94 | a numeric quantity is sent as non-empty text that starts with '-' exactly when the number is negative |
| JsValues.NatTextRoundTrip | update-medicine-user.mjs:93 | reading the placeholder text back as decimal gives the same number |
| DateFormat.Split | update-medicine-user.mjs:16 | `split('-')` always gives at least one part, and no part contains a dash |
| DateFormat.JoinSplit | update-medicine-user.mjs:16 | joining the parts with '-' gives back the original string, so splitting loses no character |
| DateFormat.SplitFirst | update-medicine-user.mjs:16 | a dash-free prefix followed by a dash is split off as the first part |
| DateFormat.SplitDashFree | update-medicine-user.mjs:16 | a string without a dash is a single part |
| DateFormat.SplitJoin | update-medicine-user.mjs:16 | splitting dash-free parts joined by '-' gives back the parts |
| DateFormat.ConvertDateFormat | update-medicine-user.mjs:15-18 | the result always contains the two dashes of the template, so it is never empty (and so is truthy) |
| DateFormat.ConvertDayMonthYear | update-medicine-user.mjs:15-18 | `d-m-y` with dash-free parts becomes `y-m-d`, whatever the parts hold |
| DateFormat.ConvertTwice | update-medicine-user.mjs:15-18 | on a three-part date, converting twice gives back the input |
| DateFormat.ConvertDropsExtraParts | update-medicine-user.mjs:16-17 | parts after the third are dropped |
| DateFormat.ConvertMissingYear | update-medicine-user.mjs:16-17 | with two parts the missing year prints as "undefined" |
| DateFormat.ConvertMissingMonthAndYear | update-medicine-user.mjs:16-17 | with one part the missing month and year print as "undefined" |
| DateFormat.ConvertExampleValid | update-medicine-user.mjs:15-18 | "05-03-2024" becomes "2024-03-05" |
| DateFormat.ConvertExampleNoCalendarCheck | update-medicine-user.mjs:15-18 | "31-02-2024" becomes "2024-02-31": there is no calendar check |
| DateFormat.ConvertExampleTwoParts | update-medicine-user.mjs:15-18 | "1-2" becomes "undefined-2-1" and does not throw |
| DateFormat.ConvertExampleFourParts | update-medicine-user.mjs:15-18 | "1-2-3-4" becomes "3-2-1" |
| DateFormat.ConvertExampleEmpty | update-medicine-user.mjs:15-18 | "" becomes "undefined-undefined-" |
| Sql.BindNull | update-medicine-user.mjs:50-63 | a value is sent as SQL NULL exactly when it is undefined or null, so a missing credential or id reaches the server as NULL |
| Sql.NullMatchesNothing | update-medicine-user.mjs:50-71 | a NULL credential finds no user, and a NULL id or NULL owner finds no record |
| Sql.Set | update-medicine-user.mjs:93-102 | one `column = $n` assignment changes that column and no other column |
| Sql.AssignAll | update-medicine-user.mjs:106 | a SET list never changes the id, the owner, the name, the measurement type or the entry and update dates |
| Sql.NonEmptyJoin | update-medicine-user.mjs:106 | the text of a non-empty SET list starts with its first column's name, so it is never empty |
| Sql.ExecuteUpdate | update-medicine-user.mjs:106-110 | an empty SET list, a placeholder without a parameter or a column assigned twice is an error; otherwise only the row whose id equals the WHERE parameter changes, at most one row is returned, and with none returned the table is unchanged |
| Sql.Database.constructor | update-medicine-user.mjs:29 | a new client holds the given tables, is not connected and has sent nothing |
| Sql.Database.Connect | update-medicine-user.mjs:47 | connecting changes no table and appends Opened to the events sent |
| Sql.Database.End | update-medicine-user.mjs:139 | closing changes no table and appends Closed to the events sent |
| Sql.Database.SelectUser | update-medicine-user.mjs:50-53 | the users query finds a row exactly when the bound credential is a known user's; it changes nothing |
| Sql.Database.SelectMedicine | update-medicine-user.mjs:63-66 | the record query finds a row exactly when the bound id names a record owned by the bound credential; it changes nothing |
| Sql.Database.Update | update-medicine-user.mjs:110 | the UPDATE gives the server's answer for the bound parameters, and the new medicines table is the server's on success and unchanged on error |
| UpdateMedicine.PushIfTruthy | update-medicine-user.mjs:92-103 | one step of the builder appends a clause numbered one past the clauses before it, with its value, only when the value is truthy |
| UpdateMedicine.BuildUpdate | update-medicine-user.mjs:86-107 | the builder produces exactly `UpdatePlan`, whose meaning is proved in UpdateProperties |
| UpdateMedicine.SendUpdate | update-medicine-user.mjs:86-127 | the update gives `UpdateOutcome`'s answer, tables and query: 500 with the message on an SQL error, 404 on no row, 200 with the returned row otherwise |
| UpdateMedicine.AttemptUpdate | update-medicine-user.mjs:45-136 | the `try` block gives `Attempt`'s answer, new tables and query sequence |
| UpdateMedicine.Handler | update-medicine-user.mjs:20-141 | on the fresh client the handler creates (not connected, nothing sent), the handler gives `Handle`'s answer, new tables and exactly `Handle`'s query sequence, and leaves the client disconnected |
| UpdateProperties.PlanPositions | update-medicine-user.mjs:86-107 | each truthy field has its clause and value at the position given by the number of truthy fields before it; the id is the last value and is bound to the WHERE placeholder |
| UpdateProperties.PlanNumbered | update-medicine-user.mjs:92-103 | the i-th clause uses placeholder $(i+1), and its value is the truthy value of its own column |
| UpdateProperties.PlanColumns | update-medicine-user.mjs:92-103 | a column is assigned exactly when its value is truthy |
| UpdateProperties.PlanWellFormed | update-medicine-user.mjs:86-107 | every placeholder has a parameter, the last parameter is used, and no column is assigned twice |
| UpdateProperties.BuilderNeverEmpty | update-medicine-user.mjs:75-103 | once the guards pass, the SET list has at least one clause and its joined text is not empty, so the statement is never `SET  WHERE` |
| UpdateProperties.AssignAllSupplied | update-medicine-user.mjs:106 | applying a SET list whose placeholders are bound to their own columns' values sets each named column to that value and leaves the other columns unchanged |
| UpdateProperties.PatchedChangesOnlySupplied | update-medicine-user.mjs:92-103 | the patched row replaces exactly the supplied columns; id, owner and date_of_update are kept |
| UpdateProperties.PlanBindings | update-medicine-user.mjs:92-107 | each placeholder of the SET list is bound to its own column's value |
| UpdateProperties.PlanAssignsColumn | update-medicine-user.mjs:92-110 | the built SET list gives each column the value it has in the patched row |
| UpdateProperties.PlanAssigns | update-medicine-user.mjs:92-110 | the built SET list turns the row into the patched row |
| UpdateProperties.ExecutePlanPatches | update-medicine-user.mjs:86-110 | the built UPDATE, on a table holding the id, replaces that row by the patched row, returns it, and leaves the other rows alone |
| UpdateProperties.MethodCheckedFirst | update-medicine-user.mjs:22-27 | a method other than POST gets 405 with no query and no change |
| UpdateProperties.FalsyFieldsRejected | update-medicine-user.mjs:35-40 | with all three fields falsy the answer is 400 with no connection and no query |
| UpdateProperties.UnknownCredentialRejected | update-medicine-user.mjs:50-58 | an unknown or missing credential gets 400 after the users query alone; the connection is closed and nothing changes |
| UpdateProperties.MissingCredentialRejected | update-medicine-user.mjs:50-58 | a body without a credential, or with a null one, gets 400 after one users query with NULL; the connection is closed and nothing changes |
| UpdateProperties.MissingIdNotFound | update-medicine-user.mjs:63-71 | a known user whose body has no id, or a null one, gets 404 and nothing changes |
| UpdateProperties.UnownedRecordRejected | update-medicine-user.mjs:63-71 | a known user naming none of their own records gets 404 after the two lookups, with nothing changed |
| UpdateProperties.NotFoundHidesOwnership | update-medicine-user.mjs:63-71 | a missing id and another owner's id get the same 404 and leave the tables unchanged |
| UpdateProperties.NonStringExpiryRejected | update-medicine-user.mjs:75-83 | a truthy non-string expiry date throws in the conversion and gets 400 with nothing changed |
| UpdateProperties.UpdateSucceeds | update-medicine-user.mjs:45-140 | past every guard the answer is 200 with the patched row, only that row is replaced, and exactly open, two lookups, one UPDATE and close are sent |
| UpdateProperties.NoInternalErrorNoUpdateFailure | update-medicine-user.mjs:112-136 | in the model every answer is 200, 400, 404 or 405; the 404 for an update that returns no row and the 500 are never reached |
| UpdateProperties.OnlyOwnedRowChanges | update-medicine-user.mjs:63-110 | the users table and the set of ids never change; a row changes only if the caller owns it and named it, its fixed columns are kept, and a changed quantity is the caller's truthy quantity |
| UpdateProperties.FalsyQuantityNeverStored | update-medicine-user.mjs:92-95 | a request with a falsy quantity, 0 included, leaves every stored quantity as it was |
| UpdateProperties.ValidTablesPreserved | update-medicine-user.mjs:45-127 | every row stays under its own id and keeps an owner that is a known user |
| UpdateProperties.ConnectionAlwaysClosed | update-medicine-user.mjs:20-141 | no query is sent exactly when the method check or the field check fails; otherwise the connection is opened first, closed last, and neither in between |
| UpdateProperties.CredentialCheckedBeforeLookup | update-medicine-user.mjs:50-63 | a record query is always sent right after a users query that found the user |
| UpdateProperties.QuantityUpdateExample | update-medicine-user.mjs:92-127 | record 7 of "abc" with quantity 3 gets 200, and only its quantity becomes "3" |
| UpdateProperties.ExpiryUpdateExample | update-medicine-user.mjs:75-127 | an expiry of "31-02-2024" gets 200 and is stored as "2024-02-31" |

## Left out

- The other handlers of the service (creating a user, listing users, listing a user's medicines) are not part of this model.
- The connection settings (`DB_CONFIG`, environment variables, TLS) and the network are not modelled. `client.connect()` only sets a flag. A failing connection or query is not modelled: in the code it would be caught and answered 500.
- `JSON.parse` of the body is not modelled. The handler receives the parsed fields. A malformed body makes `JSON.parse` throw before the `try`, so the handler rejects. The model has no such path.
- JSON numbers are integers in the model. Fractions, exponents and their text form are not modelled.
- Responses are structured values, not the strings `JSON.stringify` makes.
- `console.error` logging is not modelled. It has no effect on the answer.
- PostgreSQL's column types are not modelled. A bound value is stored as the text the driver sends. Ids are compared as text, so `"07"` does not find record 7. A value the real server would reject (quantity `"abc"`, an impossible date such as `"2024-02-31"`, an `"undefined"` year) is stored as is instead of raising an error.
- NoInternalErrorNoUpdateFailure: holds only in the model. Because of the previous two items, the real server can still answer 500 on a type error or a dropped connection.
- NoInternalErrorNoUpdateFailure: the 404 "update failed" path needs a row to disappear between the lookup and the UPDATE. Requests run one at a time in the model, so that race with concurrent requests is out of scope.
- `rowCount` of the two lookups is 0 or 1, because credentials and ids are unique keys. Only zero versus non-zero matters to the code.
- `userCredentialValid` is assigned but never read, both in the code and in `AttemptUpdate`.
- BuildUpdate: the statement is produced as data. Its text is given by `Sql.StatementText`, which follows the code's template, but no property of that text is proved character by character.
- `event.httpMethod` is a string in the model. A missing method compares unequal to `"POST"`, just like any other string but `"POST"`.
