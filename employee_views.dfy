/**
 * The employee endpoints: the list view behind the IsAdmin class gate, and
 * the detail view, whose handlers fetch through their own `get_object` and
 * so are never gated by IsAdminOrOwner (the caller is not consulted).
 */
module EmployeeViews {
  import opened Wrappers
  import opened Tables
  import opened Http
  import opened Models
  import opened Permissions
  import opened Validation
  import opened Store

  /** EmployeeListView.get: the active employees in key order, for staff only. */
  method ListGet(db: Db, c: Caller) returns (status: int, data: seq<Row<Employee>>)
    requires db.Valid()
    ensures status == OK <==> IsAdmin(c)
    ensures status != OK ==> status == DeniedStatus(c) && data == []
    ensures status == OK ==> forall x :: x in data <==> x in db.state.employees && x.val.isActive
    ensures status == OK ==> Ordered(data)
  {
    if !IsAdmin(c) {
      return DeniedStatus(c), [];
    }
    return OK, ActiveRows(db.state.employees);
  }

  /**
   * EmployeeListView.post as written. The serializer lists `user` as
   * read-only, so validation ignores it and `save()` inserts a row without
   * an owner; the NOT NULL owner column refuses it, nothing is stored and
   * the request ends in a server error. No request can create an employee.
   */
  method ListPostAsWritten(db: Db, c: Caller, d: ProfileInput) returns (status: int)
    requires db.Valid()
    ensures !IsAdmin(c) ==> status == DeniedStatus(c)
    ensures IsAdmin(c) ==> (status == BAD_REQUEST <==> EmployeeErrors(d, false) != {})
    ensures IsAdmin(c) ==> (status == SERVER_ERROR <==> EmployeeErrors(d, false) == {})
    ensures status != CREATED
  {
    if !IsAdmin(c) {
      return DeniedStatus(c);
    }
    if EmployeeErrors(d, false) != {} {
      return BAD_REQUEST;
    }
    return SERVER_ERROR;
  }

  /** An empty payload passes the serializer, so a staff POST reaches the failing INSERT. */
  lemma EmptyPayloadValid()
    ensures EmployeeErrors(ProfileInput(Absent, Absent, Absent, Absent, Absent), false) == {}
  {
  }

  /**
   * The errors of a create request once `user` is a writable field: the
   * profile fields as before, and an owner that exists and has no employee
   * profile yet.
   */
  function CreateErrors(d: ProfileInput, users: seq<Row<User>>, employees: seq<Row<Employee>>): (errs: set<Field>)
    ensures errs == {} <==> EmployeeErrors(d, false) == {} && d.user.Given?
                            && d.user.value in Ids(users) && d.user.value !in Owners(employees)
  {
    EmployeeErrors(d, false) + OwnerErrors(d.user, Ids(users), Owners(employees))
  }

  /**
   * EmployeeListView.post with the owner taken from the payload: staff only;
   * a request with errors stores nothing; otherwise exactly one employee is
   * added, under the next key, owned by the named user.
   */
  method ListPost(db: Db, c: Caller, d: ProfileInput) returns (status: int, data: Option<Row<Employee>>)
    requires db.Valid()
    modifies db
    ensures db.Valid()
    ensures !IsAdmin(c) ==> status == DeniedStatus(c)
    ensures IsAdmin(c) ==> (status == CREATED <==> old(CreateErrors(d, db.state.users, db.state.employees)) == {})
    ensures IsAdmin(c) && status != CREATED ==> status == BAD_REQUEST
    ensures status != CREATED ==> data.None? && db.state == old(db.state)
    ensures status == CREATED ==>
              && data == Some(Row(old(db.state.nextEmployee), NewProfile(d, d.user.value, NewEmployeeExtra(d))))
              && db.state == old(db.state).(employees := old(db.state.employees) + [data.value], nextEmployee := data.value.id + 1)
  {
    if !IsAdmin(c) {
      return DeniedStatus(c), None;
    }
    if CreateErrors(d, db.state.users, db.state.employees) != {} {
      return BAD_REQUEST, None;
    }
    var p := NewProfile(d, d.user.value, NewEmployeeExtra(d));
    var id := db.InsertEmployee(p);
    return CREATED, Some(Row(id, p));
  }

  /** EmployeeDetailView.get: the employee if it exists and is active, otherwise 404. */
  method DetailGet(db: Db, c: Caller, pk: Id) returns (status: int, data: Option<Employee>)
    requires db.Valid()
    ensures status == OK || status == NOT_FOUND
    ensures status == OK <==> data.Some?
    ensures data.Some? ==> Row(pk, data.value) in db.state.employees && data.value.isActive
    ensures data.None? ==> forall x :: x in db.state.employees && x.id == pk ==> !x.val.isActive
  {
    var found := ActiveFind(db.state.employees, pk);
    if found.None? {
      forall x | x in db.state.employees && x.id == pk ensures !x.val.isActive {
        var i :| 0 <= i < |db.state.employees| && db.state.employees[i] == x;
      }
      return NOT_FOUND, None;
    }
    return OK, found;
  }

  /**
   * EmployeeDetailView.put: a partial update of an active employee. Only the
   * submitted fields (position among them) change; key and owner never do. An absent or inactive
   * key gives 404 and invalid data 400, both with the table unchanged.
   */
  method DetailPut(db: Db, c: Caller, pk: Id, d: ProfileInput) returns (status: int, data: Option<Employee>)
    requires db.Valid()
    modifies db
    ensures db.Valid()
    ensures old(ActiveFind(db.state.employees, pk)).None? ==> status == NOT_FOUND
    ensures old(ActiveFind(db.state.employees, pk)).Some? ==>
              (status == OK <==> EmployeeErrors(d, true) == {}) && (status != OK ==> status == BAD_REQUEST)
    ensures status != OK ==> data.None? && db.state == old(db.state)
    ensures status == OK ==>
              && data == Some(ApplyEmployee(old(ActiveFind(db.state.employees, pk)).value, d))
              && db.state == old(db.state).(employees := Replace(old(db.state.employees), pk, data.value))
  {
    var found := ActiveFind(db.state.employees, pk);
    if found.None? {
      return NOT_FOUND, None;
    }
    if EmployeeErrors(d, true) != {} {
      return BAD_REQUEST, None;
    }
    var updated := ApplyEmployee(found.value, d);
    db.UpdateEmployee(pk, updated);
    return OK, Some(updated);
  }

  /**
   * EmployeeDetailView.delete: a soft delete. The row stays, inactive, so a
   * later lookup or list no longer shows it; an absent or inactive key gives
   * 404 with the table unchanged.
   */
  method DetailDelete(db: Db, c: Caller, pk: Id) returns (status: int)
    requires db.Valid()
    modifies db
    ensures db.Valid()
    ensures status == NO_CONTENT <==> old(ActiveFind(db.state.employees, pk)).Some?
    ensures status != NO_CONTENT ==> status == NOT_FOUND && db.state == old(db.state)
    ensures status == NO_CONTENT ==>
              && db.state == old(db.state).(employees := Replace(old(db.state.employees), pk, SoftDeleted(old(ActiveFind(db.state.employees, pk)).value)))
              && pk in Ids(db.state.employees) && ActiveFind(db.state.employees, pk).None?
  {
    var found := ActiveFind(db.state.employees, pk);
    if found.None? {
      return NOT_FOUND;
    }
    SoftDeleteHides(db.state.employees, pk, found.value);
    db.SoftDeleteEmployee(pk);
    return NO_CONTENT;
  }
}
