/**
 * The task endpoints. Neither view has a working class gate (the object
 * check IsAdminOrAssignedEmployee is never invoked); the handlers check for
 * staff themselves on POST and DELETE. The server's clock is `now`.
 */
module TaskViews {
  import opened Wrappers
  import opened Tables
  import opened Http
  import opened Models
  import opened Permissions
  import opened Validation
  import opened Store

  /** `Task.objects.filter(assigned_to__user=user)`: the tasks of the employee rows `uid` owns. */
  function AssignedTo(tasks: seq<Row<Task>>, employees: seq<Row<Employee>>, uid: Id): (r: seq<Row<Task>>)
    ensures forall x :: x in r <==> x in tasks && EmployeeUser(employees, x.val.assignedTo) == Some(uid)
    ensures Ordered(tasks) ==> Ordered(r)
  {
    Filter(tasks, (t: Task) => EmployeeUser(employees, t.assignedTo) == Some(uid))
  }

  /**
   * The filtered list holds exactly the tasks assigned to an employee row of
   * `uid`, which are exactly the tasks IsAdminOrAssignedEmployee would let a
   * non-staff `uid` see.
   */
  lemma AssignedToExactly(tasks: seq<Row<Task>>, employees: seq<Row<Employee>>, uid: Id, x: Row<Task>)
    requires Ordered(employees)
    ensures x in AssignedTo(tasks, employees, uid) <==>
              x in tasks && exists e :: Row(x.val.assignedTo, e) in employees && e.user == uid
    ensures x in AssignedTo(tasks, employees, uid) <==>
              x in tasks && IsAdminOrAssignedEmployee(Member(uid, false), x.val, employees)
  {
    AssignedGate(uid, x.val, employees);
  }

  /**
   * TaskListView.get: every task for staff; for another user, the tasks
   * assigned to its employee rows. The anonymous user is not a value the
   * query accepts, so that request fails with a server error.
   */
  method ListGet(db: Db, c: Caller) returns (status: int, data: seq<Row<Task>>)
    requires db.Valid()
    ensures IsStaff(c) ==> status == OK && data == db.state.tasks
    ensures c.Anonymous? ==> status == SERVER_ERROR && data == []
    ensures c.Member? && !c.isStaff ==>
              && status == OK
              && (forall x :: x in data <==> x in db.state.tasks && IsAdminOrAssignedEmployee(c, x.val, db.state.employees))
              && Ordered(data)
  {
    if IsStaff(c) {
      return OK, db.state.tasks;
    }
    if c.Anonymous? {
      return SERVER_ERROR, [];
    }
    data := AssignedTo(db.state.tasks, db.state.employees, c.id);
    status := OK;
  }

  /**
   * TaskListView.post: a non-staff caller (anonymous included) is refused
   * before validation; invalid data gives 400; otherwise exactly one task is
   * added under the next key, with `todo` when no status was submitted.
   */
  method ListPost(db: Db, c: Caller, d: TaskInput, now: Stamp) returns (status: int, data: Option<Row<Task>>)
    requires db.Valid()
    modifies db
    ensures db.Valid()
    ensures !IsStaff(c) ==> status == FORBIDDEN
    ensures IsStaff(c) ==> (status == CREATED <==> old(TaskErrors(d, false, Ids(db.state.employees))) == {})
    ensures IsStaff(c) && status != CREATED ==> status == BAD_REQUEST
    ensures status != CREATED ==> data.None? && db.state == old(db.state)
    ensures status == CREATED ==>
              && data == Some(Row(old(db.state.nextTask), NewTask(d, old(Ids(db.state.employees)), now)))
              && db.state == old(db.state).(tasks := old(db.state.tasks) + [data.value], nextTask := data.value.id + 1)
  {
    if !IsStaff(c) {
      return FORBIDDEN, None;
    }
    if TaskErrors(d, false, Ids(db.state.employees)) != {} {
      return BAD_REQUEST, None;
    }
    var t := NewTask(d, Ids(db.state.employees), now);
    var id := db.InsertTask(t);
    return CREATED, Some(Row(id, t));
  }

  /** TaskDetailView.get: the task with that key, or 404; any caller. */
  method DetailGet(db: Db, c: Caller, pk: Id) returns (status: int, data: Option<Task>)
    requires db.Valid()
    ensures status == OK || status == NOT_FOUND
    ensures status == OK <==> pk in Ids(db.state.tasks)
    ensures status == OK <==> data.Some?
    ensures data.Some? ==> Row(pk, data.value) in db.state.tasks
  {
    var found := Find(db.state.tasks, pk);
    if found.None? {
      return NOT_FOUND, None;
    }
    return OK, found;
  }

  /**
   * TaskDetailView.put, for any caller: a partial update in which the key
   * and `created_at` never change. An absent key gives 404 and invalid data
   * 400, both with the table unchanged.
   */
  method DetailPut(db: Db, c: Caller, pk: Id, d: TaskInput, now: Stamp) returns (status: int, data: Option<Task>)
    requires db.Valid()
    modifies db
    ensures db.Valid()
    ensures pk !in old(Ids(db.state.tasks)) ==> status == NOT_FOUND
    ensures pk in old(Ids(db.state.tasks)) ==>
              (status == OK <==> TaskErrors(d, true, Ids(db.state.employees)) == {}) && (status != OK ==> status == BAD_REQUEST)
    ensures status != OK ==> data.None? && db.state == old(db.state)
    ensures status == OK ==>
              && data == Some(ApplyTask(old(Find(db.state.tasks, pk)).value, d, Ids(db.state.employees), now))
              && db.state == old(db.state).(tasks := Replace(old(db.state.tasks), pk, data.value))
  {
    var found := Find(db.state.tasks, pk);
    if found.None? {
      return NOT_FOUND, None;
    }
    if TaskErrors(d, true, Ids(db.state.employees)) != {} {
      return BAD_REQUEST, None;
    }
    var updated := ApplyTask(found.value, d, Ids(db.state.employees), now);
    if d.assignedTo.Absent? {
      // The kept assignee is an existing employee, as every stored task's is.
      var i :| 0 <= i < |db.state.tasks| && db.state.tasks[i] == Row(pk, found.value);
    }
    db.UpdateTask(pk, updated);
    return OK, Some(updated);
  }

  /**
   * TaskDetailView.delete: the staff check comes first, so a non-staff
   * caller gets 403 whether or not the key exists; staff remove the row
   * outright, or get 404 for an absent key.
   */
  method DetailDelete(db: Db, c: Caller, pk: Id) returns (status: int)
    requires db.Valid()
    modifies db
    ensures db.Valid()
    ensures !IsStaff(c) ==> status == FORBIDDEN
    ensures IsStaff(c) ==> (status == NO_CONTENT <==> pk in old(Ids(db.state.tasks)))
    ensures IsStaff(c) && status != NO_CONTENT ==> status == NOT_FOUND
    ensures status != NO_CONTENT ==> db.state == old(db.state)
    ensures status == NO_CONTENT ==>
              && db.state == old(db.state).(tasks := Remove(old(db.state.tasks), pk))
              && Ids(db.state.tasks) == old(Ids(db.state.tasks)) - {pk}
  {
    if !IsStaff(c) {
      return FORBIDDEN;
    }
    if Find(db.state.tasks, pk).None? {
      return NOT_FOUND;
    }
    RemoveIds(db.state.tasks, pk, db.state.nextTask);
    db.DeleteTask(pk);
    return NO_CONTENT;
  }
}
