/** `POST /api/journal` of backend/index.js, and the Today page's `saveToday` that
    calls it. The `journal_entries` table is a map keyed by `date_key`, and the
    `INSERT ... ON DUPLICATE KEY UPDATE` is an upsert on that map. */
module JournalRoute {
  import opened Maybe
  import opened DateKeys
  import opened TaskRoutes

  /** A stored entry. `mood` and `note` are `None` for SQL `NULL`. */
  datatype JournalRow = JournalRow(id: nat, mood: Option<int>, note: Option<string>,
                                   createdAt: Time, updatedAt: Time)

  /** The table, and the id that the next inserted row receives. */
  datatype Journal = Journal(rows: map<string, JournalRow>, nextId: nat)

  /** The request body. `None` is an absent field: a missing `dateKey`, or a `mood` or
      `note` that is `undefined` or `null`. */
  datatype JournalBody = JournalBody(dateKey: Option<string>, mood: Option<int>, note: Option<string>)

  const DateKeyRequired: string := "dateKey is required"

  /** Ids are unique and below `nextId`. */
  predicate Valid(j: Journal) {
    (forall k :: k in j.rows ==> j.rows[k].id < j.nextId) &&
    (forall k1, k2 :: k1 in j.rows && k2 in j.rows && j.rows[k1].id == j.rows[k2].id ==> k1 == k2)
  }

  /** `INSERT INTO journal_entries (date_key, mood, note) VALUES (?, ?, ?) ON DUPLICATE
      KEY UPDATE mood = VALUES(mood), note = VALUES(note), updated_at = CURRENT_TIMESTAMP`.
      A new key gets a fresh row. An existing key keeps its id and creation time. */
  function Upsert(j: Journal, key: string, mood: Option<int>, note: Option<string>, now: Time): (r: Journal)
    ensures r.rows.Keys == j.rows.Keys + {key}
    ensures r.rows[key].mood == mood && r.rows[key].note == note && r.rows[key].updatedAt == now
    ensures forall k :: k in j.rows && k != key ==> r.rows[k] == j.rows[k]
  {
    if key in j.rows then
      Journal(j.rows[key := j.rows[key].(mood := mood, note := note, updatedAt := now)], j.nextId)
    else
      Journal(j.rows[key := JournalRow(j.nextId, mood, note, now, now)], j.nextId + 1)
  }

  /** The handler: a missing or empty `dateKey` is a 400 and the table is untouched.
      Otherwise it upserts, with `mood ?? null` and `note ?? null`, and answers with the
      row now stored under the key. */
  function PostJournal(j: Journal, body: JournalBody, now: Time): (r: Response<(Journal, JournalRow)>)
    ensures r.BadRequest? <==> body.dateKey.None? || body.dateKey == Some("")
    ensures r.BadRequest? ==> r.error == DateKeyRequired
    ensures r.Ok? ==> r.value.0 == Upsert(j, body.dateKey.value, body.mood, body.note, now) &&
                      body.dateKey.value in r.value.0.rows &&
                      r.value.1 == r.value.0.rows[body.dateKey.value]
  {
    match body.dateKey
    case None => BadRequest(DateKeyRequired)
    case Some(key) =>
      if key == "" then BadRequest(DateKeyRequired)
      else
        var j' := Upsert(j, key, body.mood, body.note, now);
        Ok((j', j'.rows[key]))
  }

  // ---- what the upsert promises ----

  /** After an upsert the key holds exactly the posted mood and note, no other key
      changes, and the set of keys grows by that key alone. */
  lemma UpsertStores(j: Journal, key: string, mood: Option<int>, note: Option<string>, now: Time)
    ensures var j' := Upsert(j, key, mood, note, now);
      j'.rows.Keys == j.rows.Keys + {key} &&
      j'.rows[key].mood == mood && j'.rows[key].note == note && j'.rows[key].updatedAt == now &&
      (forall k :: k in j.rows && k != key ==> j'.rows[k] == j.rows[k])
  {
  }

  /** Posting a key that already has an entry replaces its mood and note in place. The
      row keeps its id and creation time, and no row is added. */
  lemma UpsertExistingKey(j: Journal, key: string, mood: Option<int>, note: Option<string>, now: Time)
    requires key in j.rows
    ensures var j' := Upsert(j, key, mood, note, now);
      |j'.rows| == |j.rows| && j'.nextId == j.nextId &&
      j'.rows[key] == JournalRow(j.rows[key].id, mood, note, j.rows[key].createdAt, now)
  {
    assert Upsert(j, key, mood, note, now).rows.Keys == j.rows.Keys;
  }

  /** Posting a new key adds one row, created and updated now, with an id that no other
      row has. */
  lemma UpsertNewKey(j: Journal, key: string, mood: Option<int>, note: Option<string>, now: Time)
    requires Valid(j) && key !in j.rows
    ensures var j' := Upsert(j, key, mood, note, now);
      |j'.rows| == |j.rows| + 1 &&
      j'.rows[key] == JournalRow(j.nextId, mood, note, now, now) &&
      (forall k :: k in j.rows ==> j.rows[k].id != j'.rows[key].id)
  {
  }

  /** The table never holds two rows with one id, whatever is posted. */
  lemma UpsertKeepsValid(j: Journal, key: string, mood: Option<int>, note: Option<string>, now: Time)
    requires Valid(j)
    ensures Valid(Upsert(j, key, mood, note, now))
  {
  }

  /** Posting the same body twice stores what posting it once stores; only the update
      time moves to the second call's. */
  lemma UpsertIdempotent(j: Journal, key: string, mood: Option<int>, note: Option<string>, t1: Time, t2: Time)
    ensures var once := Upsert(j, key, mood, note, t1);
      var twice := Upsert(once, key, mood, note, t2);
      twice.nextId == once.nextId && twice.rows.Keys == once.rows.Keys &&
      twice.rows[key] == once.rows[key].(updatedAt := t2) &&
      (forall k :: k in once.rows && k != key ==> twice.rows[k] == once.rows[k])
  {
  }

  /** A post with a date key is accepted, and answers with the row that holds the
      posted values: under the old id when the key already had an entry. */
  lemma PostJournalOutcome(j: Journal, body: JournalBody, now: Time)
    requires body.dateKey.Some? && body.dateKey.value != ""
    ensures var r := PostJournal(j, body, now);
      r.Ok? && r.value.1.mood == body.mood && r.value.1.note == body.note &&
      r.value.1.updatedAt == now &&
      (body.dateKey.value in j.rows ==> r.value.1.id == j.rows[body.dateKey.value].id)
  {
    UpsertStores(j, body.dateKey.value, body.mood, body.note, now);
  }

  // ---- the client side ----

  /** `saveToday`: the body posts today's UTC date key with the page's mood and note. */
  function SaveTodayBody(now: Time, mood: Option<int>, note: string): JournalBody {
    JournalBody(Some(DateKey(now)), mood, Some(note))
  }

  /** The Today page's save is never refused: its date key is ten characters long. It
      stores the page's mood and note under today's key, and a second save on the same
      day overwrites that entry rather than adding one. */
  lemma SaveTodayAccepted(j: Journal, now: Time, later: Time, mood: Option<int>, note: string,
                          mood2: Option<int>, note2: string)
    requires DayOf(now) == DayOf(later)
    ensures var r := PostJournal(j, SaveTodayBody(now, mood, note), now);
      r.Ok? && r.value.0.rows[DateKey(now)].mood == mood &&
      r.value.0.rows[DateKey(now)].note == Some(note) &&
      var r2 := PostJournal(r.value.0, SaveTodayBody(later, mood2, note2), later);
      r2.Ok? && |r2.value.0.rows| == |r.value.0.rows| &&
      r2.value.0.rows[DateKey(now)].mood == mood2 && r2.value.0.rows[DateKey(now)].id == r.value.0.rows[DateKey(now)].id
  {
    DateKeySameDay(now, later);
    var key := DateKey(now);
    assert |key| == 10;
    var j1 := Upsert(j, key, mood, Some(note), now);
    UpsertExistingKey(j1, key, mood2, Some(note2), later);
  }
}
