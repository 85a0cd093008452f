/** The task endpoints of backend/index.js, as request shaping: `parseDateOrNow`,
    the validation and defaults of `POST /api/tasks`, and the SQL `SET` list that
    `PATCH /api/tasks/:id` builds. The queries themselves are not modelled. */
module TaskRoutes {
  import opened Maybe
  import opened DateKeys

  /** A row of the `tasks` table as the queries return it; `done` is the stored
      TINYINT (1 or 0). */
  datatype Row = Row(id: nat, text: string, done: int, createdAt: Time, source: string)

  /** What `new Date(createdAt)` makes of the request's `createdAt`: a falsy value
      (missing, null, empty), a value that does not parse (`NaN` time), or an instant. */
  datatype DateInput = Falsy | Unparseable | Instant(t: Time)

  /** A handler's answer: a 400 with its error message, or the value to go on with. */
  datatype Response<+T> = BadRequest(error: string) | Ok(value: T)

  /** `parseDateOrNow(createdAt)`: the parsed instant, or the server's "now" when the
      input is falsy or unparseable. */
  function ParseDateOrNow(createdAt: DateInput, now: Time): (d: Time)
    ensures createdAt.Instant? ==> d == createdAt.t
    ensures !createdAt.Instant? ==> d == now
  {
    match createdAt
    case Instant(t) => t
    case _ => now
  }

  /** The body of `POST /api/tasks`. `text` is `None` when it is missing or not a
      string; `done` is the truthiness of the field when it is present; `source` is
      `None` when the field is missing. */
  datatype CreateBody = CreateBody(text: Option<string>, done: Option<bool>, createdAt: DateInput, source: Option<string>)

  /** The values of the `INSERT INTO tasks (text, done, created_at, source)`. */
  datatype Insert = Insert(text: string, done: int, createdAt: Time, source: string)

  const TextRequired: string := "text is required"

  /** Validation and defaults of `POST /api/tasks`: a missing, empty or non-string
      `text` is a 400 and nothing is inserted; otherwise `done` defaults to false and is
      stored as 1 or 0, `source` defaults to "web" and `created_at` is
      `parseDateOrNow(createdAt)`. */
  function ValidateCreate(body: CreateBody, now: Time): (r: Response<Insert>)
    ensures r.BadRequest? <==> body.text.None? || body.text == Some("")
    ensures r.BadRequest? ==> r.error == TextRequired
    ensures r.Ok? ==>
      r.value.text == body.text.value && r.value.text != "" &&
      (r.value.done == 1 <==> body.done == Some(true)) &&
      (r.value.done == 0 || r.value.done == 1) &&
      (body.source.None? ==> r.value.source == "web") &&
      (body.source.Some? ==> r.value.source == body.source.value) &&
      r.value.createdAt == ParseDateOrNow(body.createdAt, now)
  {
    match body.text
    case None => BadRequest(TextRequired)
    case Some(text) =>
      if text == "" then BadRequest(TextRequired)
      else
        var done := body.done.GetOr(false);
        Ok(Insert(text, if done then 1 else 0, ParseDateOrNow(body.createdAt, now), body.source.GetOr("web")))
  }

  /** The row that the `SELECT ... WHERE id = insertId` after the insert returns. */
  function InsertedRow(id: nat, ins: Insert): Row {
    Row(id, ins.text, ins.done, ins.createdAt, ins.source)
  }

  // ---- PATCH /api/tasks/:id ----

  /** A value bound to a `?` placeholder. */
  datatype SqlValue = SqlText(s: string) | SqlInt(i: int)

  /** The `SET` assignments and the values bound to the statement's placeholders. */
  datatype Update = Update(fields: seq<string>, values: seq<SqlValue>)

  const NothingToUpdate: string := "Nothing to update"

  /** The field builder of `PATCH /api/tasks/:id`. `text` is `Some` exactly when the
      body's `text` is a string (the empty string included), `done` exactly when the
      body's `done` is a boolean. Each present field adds one assignment and one value,
      `text` before `done`; with neither it is a 400; the id is bound last. */
  method BuildPatch(id: string, text: Option<string>, done: Option<bool>) returns (r: Response<Update>)
    ensures r.BadRequest? <==> text.None? && done.None?
    ensures r.BadRequest? ==> r.error == NothingToUpdate
    ensures r.Ok? ==>
      r.value.fields == (if text.Some? then ["text = ?"] else []) + (if done.Some? then ["done = ?"] else []) &&
      r.value.values ==
        (if text.Some? then [SqlText(text.value)] else []) +
        (if done.Some? then [SqlInt(if done.value then 1 else 0)] else []) +
        [SqlText(id)]
    ensures r.Ok? ==> Placeholders(UpdateSql(r.value)) == |r.value.values| == |r.value.fields| + 1
  {
    var fields: seq<string> := [];
    var values: seq<SqlValue> := [];
    if text.Some? {
      fields := fields + ["text = ?"];
      values := values + [SqlText(text.value)];
    }
    if done.Some? {
      fields := fields + ["done = ?"];
      values := values + [SqlInt(if done.value then 1 else 0)];
    }
    if |fields| == 0 {
      return BadRequest(NothingToUpdate);
    }
    values := values + [SqlText(id)];
    PatchPlaceholdersMatch(id, text, done, Update(fields, values));
    return Ok(Update(fields, values));
  }

  /** `fields.join(", ")`. */
  function Join(fields: seq<string>, sep: string): string {
    if fields == [] then ""
    else if |fields| == 1 then fields[0]
    else fields[0] + sep + Join(fields[1..], sep)
  }

  /** The statement text `UPDATE tasks SET ${fields.join(", ")} WHERE id = ?`. */
  function UpdateSql(u: Update): string {
    "UPDATE tasks SET " + Join(u.fields, ", ") + " WHERE id = ?"
  }

  /** The number of `?` placeholders in a statement. */
  function Placeholders(s: string): nat {
    if s == [] then 0 else Placeholders(s[..|s| - 1]) + (if s[|s| - 1] == '?' then 1 else 0)
  }

  lemma {:induction false} PlaceholdersAppend(a: string, b: string)
    ensures Placeholders(a + b) == Placeholders(a) + Placeholders(b)
  {
    if b == [] {
      assert a + b == a;
    } else {
      assert (a + b)[..|a + b| - 1] == a + b[..|b| - 1];
      PlaceholdersAppend(a, b[..|b| - 1]);
    }
  }

  /** Joining assignments that hold one placeholder each, with a separator that holds
      none, gives one placeholder per assignment. */
  lemma {:induction false} PlaceholdersOfJoin(fields: seq<string>, sep: string)
    requires forall i :: 0 <= i < |fields| ==> Placeholders(fields[i]) == 1
    requires Placeholders(sep) == 0
    ensures Placeholders(Join(fields, sep)) == |fields|
  {
    if |fields| > 1 {
      PlaceholdersOfJoin(fields[1..], sep);
      PlaceholdersAppend(fields[0], sep);
      PlaceholdersAppend(fields[0] + sep, Join(fields[1..], sep));
    }
  }

  /** Every update that `BuildPatch` produces binds exactly as many values as its
      statement has placeholders: one per assignment and one for the id. */
  lemma PatchPlaceholdersMatch(id: string, text: Option<string>, done: Option<bool>, u: Update)
    requires u.fields == (if text.Some? then ["text = ?"] else []) + (if done.Some? then ["done = ?"] else [])
    requires u.values ==
        (if text.Some? then [SqlText(text.value)] else []) +
        (if done.Some? then [SqlInt(if done.value then 1 else 0)] else []) +
        [SqlText(id)]
    ensures |u.values| == |u.fields| + 1
    ensures Placeholders(UpdateSql(u)) == |u.values|
  {
    OnePlaceholder("text = ");
    OnePlaceholder("done = ");
    assert "text = " + "?" == "text = ?" && "done = " + "?" == "done = ?";
    assert Placeholders(", ") == 0;
    assert Placeholders("UPDATE tasks SET ") == 0 by {
      PlaceholdersNone("UPDATE tasks SET ");
    }
    OnePlaceholder(" WHERE id = ");
    assert " WHERE id = " + "?" == " WHERE id = ?";
    PlaceholdersOfJoin(u.fields, ", ");
    PlaceholdersAppend("UPDATE tasks SET ", Join(u.fields, ", "));
    PlaceholdersAppend("UPDATE tasks SET " + Join(u.fields, ", "), " WHERE id = ?");
  }

  lemma OnePlaceholder(s: string)
    requires forall i :: 0 <= i < |s| ==> s[i] != '?'
    ensures Placeholders(s + "?") == 1
  {
    PlaceholdersNone(s);
    PlaceholdersAppend(s, "?");
  }

  lemma {:induction false} PlaceholdersNone(s: string)
    requires forall i :: 0 <= i < |s| ==> s[i] != '?'
    ensures Placeholders(s) == 0
  {
    if s != [] { PlaceholdersNone(s[..|s| - 1]); }
  }
}
