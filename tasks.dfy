/** The task list of app/TodayPage.jsx: the client-side task record, the list
    transforms behind `toggleTask` and `deleteTask`, and the `tasks` state that
    `loadTasks`, `addTask`, `toggleTask` and `deleteTask` replace. Each network call
    is one step whose outcome is a parameter. */
module Tasks {
  import opened Maybe
  import opened Strings
  import opened DateKeys
  import opened TaskRoutes

  /** A task as the page holds it. `createdAt` is `None` for a task whose row had no
      creation time. The modelled `POST /api/tasks` always stores one, so no modelled
      load produces it; `None` is kept for the `t.createdAt || today` fallback. */
  datatype Task = Task(id: nat, text: string, done: bool, createdAt: Option<Time>)

  /** The page's mapping of a server row: `{ id, text, done: !!t.done, createdAt: t.created_at }`. */
  function FromRow(r: Row): Task {
    Task(r.id, r.text, r.done != 0, Some(r.createdAt))
  }

  function FromRows(rows: seq<Row>): (ts: seq<Task>)
    ensures |ts| == |rows| && forall i :: 0 <= i < |rows| ==> ts[i] == FromRow(rows[i])
  {
    seq(|rows|, i requires 0 <= i < |rows| => FromRow(rows[i]))
  }

  predicate HasId(tasks: seq<Task>, id: nat) {
    exists i :: 0 <= i < |tasks| && tasks[i].id == id
  }

  /** `tasks.find((t) => t.id === id)`: the first task with the id. */
  function Find(tasks: seq<Task>, id: nat): (r: Option<Task>)
    ensures r.None? <==> !HasId(tasks, id)
    ensures r.Some? ==> exists i :: 0 <= i < |tasks| && tasks[i] == r.value && r.value.id == id &&
                                    forall j :: 0 <= j < i ==> tasks[j].id != id
  {
    if tasks == [] then None
    else if tasks[0].id == id then Some(tasks[0])
    else
      var r := Find(tasks[1..], id);
      assert forall i :: 1 <= i < |tasks| ==> tasks[i] == tasks[1..][i - 1];
      r
  }

  /** `prev.map((t) => (t.id === id ? { ...t, done: v } : t))`. */
  function SetDone(tasks: seq<Task>, id: nat, v: bool): (r: seq<Task>)
    ensures |r| == |tasks|
    ensures forall i :: 0 <= i < |tasks| ==> tasks[i].id != id ==> r[i] == tasks[i]
    ensures forall i :: 0 <= i < |tasks| ==> tasks[i].id == id ==> r[i] == tasks[i].(done := v)
  {
    seq(|tasks|, i requires 0 <= i < |tasks| => if tasks[i].id == id then tasks[i].(done := v) else tasks[i])
  }

  /** `prev.filter((t) => t.id !== id)`. */
  function Without(tasks: seq<Task>, id: nat): (r: seq<Task>)
    ensures |r| <= |tasks|
    ensures forall i :: 0 <= i < |r| ==> r[i].id != id && r[i] in tasks
  {
    if tasks == [] then []
    else (if tasks[0].id == id then [] else [tasks[0]]) + Without(tasks[1..], id)
  }

  /** The list after `toggleTask(id)` when the PATCH succeeds (`ok`) or fails: an
      unknown id leaves it alone; otherwise every task with the id gets the flipped
      `done` of the first one, and a failure then writes the unflipped value back. */
  function Toggled(tasks: seq<Task>, id: nat, ok: bool): (r: seq<Task>)
    ensures |r| == |tasks|
    ensures forall i :: 0 <= i < |tasks| ==>
      r[i].id == tasks[i].id && r[i].text == tasks[i].text && r[i].createdAt == tasks[i].createdAt
    ensures Find(tasks, id).None? ==> r == tasks
  {
    match Find(tasks, id)
    case None => tasks
    case Some(current) =>
      var optimistic := SetDone(tasks, id, !current.done);
      if ok then optimistic else SetDone(optimistic, id, current.done)
  }

  /** The list after `deleteTask(id)`: filtered on success, the snapshot on failure. */
  function Deleted(tasks: seq<Task>, id: nat, ok: bool): (r: seq<Task>)
    ensures !ok ==> r == tasks
    ensures ok ==> forall i :: 0 <= i < |r| ==> r[i].id != id && r[i] in tasks
  {
    if ok then Without(tasks, id) else tasks
  }

  /** The request `addTask(text)` posts: the text as typed, not done, created now, from
      the mobile client. */
  function AddRequest(text: string, now: Time): CreateBody {
    CreateBody(Some(text), Some(false), Instant(now), Some("mobile"))
  }

  /** The `tasks` state of the page. */
  class TaskBoard {
    var tasks: seq<Task>

    constructor ()
      ensures tasks == []
    {
      tasks := [];
    }

    /** `loadTasks`: the server's list replaces the local one; a failed GET keeps it. */
    method Load(rows: Option<seq<Row>>)
      modifies this
      ensures tasks == if rows.Some? then FromRows(rows.value) else old(tasks)
    {
      if rows.Some? {
        tasks := FromRows(rows.value);
      }
    }

    /** `addTask(text)`: an all-white-space text sends nothing; otherwise the request
        goes out, and the created row (`response`, `None` when the POST fails) is put
        in front of the list. */
    method AddTask(text: string, now: Time, response: Option<Row>) returns (request: Option<CreateBody>)
      modifies this
      ensures request == if IsBlank(text) then None else Some(AddRequest(text, now))
      ensures tasks == if IsBlank(text) || response.None? then old(tasks)
                       else [FromRow(response.value)] + old(tasks)
    {
      TrimEmptyIffBlank(text);
      if Trim(text) == [] {
        return None;
      }
      request := Some(AddRequest(text, now));
      if response.Some? {
        tasks := [FromRow(response.value)] + tasks;
      }
    }

    /** `toggleTask(id)`: the optimistic flip, then the PATCH, then the revert when it
        fails. Returns the PATCH body's `done`, `None` when the id is unknown. */
    method ToggleTask(id: nat, ok: bool) returns (sent: Option<bool>)
      modifies this
      ensures sent == (match Find(old(tasks), id) case None => None case Some(t) => Some(!t.done))
      ensures tasks == Toggled(old(tasks), id, ok)
    {
      var current := Find(tasks, id);
      if current.None? {
        return None;
      }
      var newDone := !current.value.done;
      tasks := SetDone(tasks, id, newDone);
      sent := Some(newDone);
      if !ok {
        tasks := SetDone(tasks, id, !newDone);
      }
    }

    /** `deleteTask(id)`: a snapshot, the optimistic filter, then the DELETE, and the
        snapshot back when it fails. */
    method DeleteTask(id: nat, ok: bool)
      modifies this
      ensures tasks == Deleted(old(tasks), id, ok)
    {
      var prevTasks := tasks;
      tasks := Without(tasks, id);
      if !ok {
        tasks := prevTasks;
      }
    }
  }

  // ---- what the transforms promise ----

  /** A successful toggle flips `done` on the tasks with the id, to the negation of the
      first such task's value, and changes nothing else: not the length, not the order,
      not another task, not another field. */
  lemma ToggleSucceeds(tasks: seq<Task>, id: nat, current: Task)
    requires Find(tasks, id) == Some(current)
    ensures var r := Toggled(tasks, id, true);
      |r| == |tasks| &&
      forall i :: 0 <= i < |tasks| ==>
        r[i].id == tasks[i].id && r[i].text == tasks[i].text && r[i].createdAt == tasks[i].createdAt &&
        (tasks[i].id == id ==> r[i].done == !current.done) &&
        (tasks[i].id != id ==> r[i] == tasks[i])
  {
  }

  /** Toggling an id that no task has leaves the list as it was, whatever the outcome. */
  lemma ToggleUnknownId(tasks: seq<Task>, id: nat, ok: bool)
    requires !HasId(tasks, id)
    ensures Toggled(tasks, id, ok) == tasks
  {
  }

  /** When the PATCH fails the list is restored, provided the tasks with that id agree on
      `done` (as they do when ids are unique). */
  lemma ToggleFailureRestores(tasks: seq<Task>, id: nat)
    requires forall i, j :: 0 <= i < |tasks| && 0 <= j < |tasks| && tasks[i].id == id && tasks[j].id == id ==>
               tasks[i].done == tasks[j].done
    ensures Toggled(tasks, id, false) == tasks
  {
    match Find(tasks, id)
    case None =>
    case Some(current) =>
      var r := Toggled(tasks, id, false);
      assert |r| == |tasks|;
      forall i | 0 <= i < |tasks| ensures r[i] == tasks[i] {
        if tasks[i].id == id {
          assert r[i] == tasks[i].(done := current.done);
        }
      }
  }

  /** The revert writes the first task's old value to every task with the id, so with a
      repeated id whose tasks disagree a failed toggle does not restore the list. */
  lemma ToggleFailureWithRepeatedId()
    ensures var tasks := [Task(1, "a", false, None), Task(1, "b", true, None)];
      Toggled(tasks, 1, false) != tasks
  {
    var tasks := [Task(1, "a", false, None), Task(1, "b", true, None)];
    assert Find(tasks, 1) == Some(tasks[0]);
    assert Toggled(tasks, 1, false)[1].done == false;
  }

  /** Which tasks a filter keeps: none with the id, and every one without it, as often
      as it occurs. */
  lemma {:induction false} WithoutRemovesExactly(tasks: seq<Task>, id: nat)
    ensures forall t :: t in Without(tasks, id) ==> t in tasks && t.id != id
    ensures forall t :: t in tasks && t.id != id ==> multiset(Without(tasks, id))[t] == multiset(tasks)[t]
  {
    if tasks != [] {
      WithoutRemovesExactly(tasks[1..], id);
      assert tasks == [tasks[0]] + tasks[1..];
    }
  }

  /** A filter on an id that no task has keeps the whole list. */
  lemma {:induction false} WithoutAbsentId(tasks: seq<Task>, id: nat)
    requires !HasId(tasks, id)
    ensures Without(tasks, id) == tasks
  {
    if tasks != [] {
      assert !HasId(tasks[1..], id) by {
        assert forall i :: 0 <= i < |tasks[1..]| ==> tasks[1..][i] == tasks[i + 1];
      }
      WithoutAbsentId(tasks[1..], id);
      assert tasks == [tasks[0]] + tasks[1..];
    }
  }

  /** Filtering keeps the survivors in their order: it distributes over concatenation. */
  lemma {:induction false} WithoutKeepsOrder(a: seq<Task>, b: seq<Task>, id: nat)
    ensures Without(a + b, id) == Without(a, id) + Without(b, id)
  {
    if a == [] {
      assert a + b == b;
    } else {
      assert (a + b)[1..] == a[1..] + b;
      WithoutKeepsOrder(a[1..], b, id);
    }
  }

  /** A failed delete restores the snapshot; a successful one removes exactly the tasks
      with the id. */
  lemma DeleteOutcomes(tasks: seq<Task>, id: nat)
    ensures Deleted(tasks, id, false) == tasks
    ensures forall t :: t in Deleted(tasks, id, true) <==> t in tasks && t.id != id
  {
    WithoutRemovesExactly(tasks, id);
    forall t | t in tasks && t.id != id ensures t in Without(tasks, id) {
      assert multiset(tasks)[t] > 0;
    }
  }

  /** What `addTask` puts in front of the list is the task it asked for: the POST's
      body passes validation, and the row the server stores and returns for it maps back
      to the same text, not done, created at the client's "now". */
  lemma AddTaskRoundTrip(text: string, now: Time, serverNow: Time, id: nat)
    requires !IsBlank(text)
    ensures ValidateCreate(AddRequest(text, now), serverNow).Ok?
    ensures var ins := ValidateCreate(AddRequest(text, now), serverNow).value;
      ins.source == "mobile" &&
      FromRow(InsertedRow(id, ins)) == Task(id, text, false, Some(now))
  {
    assert text != "";
  }
}
