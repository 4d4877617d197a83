/**
 * The four permission classes. Each is one boolean expression over the
 * caller, the HTTP method and (for the object-level ones) the target record.
 */
module Permissions {
  import opened Wrappers
  import opened Tables
  import opened Http
  import opened Models

  /** `request.user.is_staff`; the anonymous user is never staff. */
  predicate IsStaff(c: Caller) {
    c.Member? && c.isStaff
  }

  /** `request.user == obj.user` for a profile: only an authenticated user can be the owner. */
  predicate IsUser(c: Caller, user: Id) {
    c.Member? && c.id == user
  }

  /** IsAdminOrOwner.has_object_permission */
  predicate IsAdminOrOwner<K>(c: Caller, obj: Profile<K>) {
    IsStaff(c) || IsUser(c, obj.user)
  }

  /** IsAdmin.has_permission */
  predicate IsAdmin(c: Caller) {
    IsStaff(c)
  }

  /**
   * IsAdminOrAssignedEmployee.has_object_permission: `obj.assigned_to.user`
   * is the owner of the employee row the task references.
   */
  predicate IsAdminOrAssignedEmployee(c: Caller, task: Task, employees: seq<Row<Employee>>) {
    IsStaff(c) || (c.Member? && EmployeeUser(employees, task.assignedTo) == Some(c.id))
  }

  /** IsAdminOrReadOnly.has_permission: reads for everyone, anything else for a present staff user. */
  predicate IsAdminOrReadOnly(c: Caller, m: Method) {
    if IsSafe(m) then true else c.Member? && c.isStaff
  }

  // ------------------------------------------------------------ what the predicates promise

  /** A staff user passes every check, whatever the method, record or task. */
  lemma StaffPassesAll<K>(c: Caller, m: Method, obj: Profile<K>, task: Task, employees: seq<Row<Employee>>)
    requires IsStaff(c)
    ensures IsAdmin(c) && IsAdminOrReadOnly(c, m)
    ensures IsAdminOrOwner(c, obj) && IsAdminOrAssignedEmployee(c, task, employees)
  {
  }

  /** The anonymous user passes none of the checks, except a read under IsAdminOrReadOnly. */
  lemma AnonymousPassesNothing<K>(m: Method, obj: Profile<K>, task: Task, employees: seq<Row<Employee>>)
    ensures !IsAdmin(Anonymous) && !IsAdminOrOwner(Anonymous, obj)
    ensures !IsAdminOrAssignedEmployee(Anonymous, task, employees)
    ensures IsAdminOrReadOnly(Anonymous, m) <==> IsSafe(m)
  {
  }

  /** IsAdminOrReadOnly lets a request through exactly when it only reads or its user is staff. */
  lemma ReadOnlyGate(c: Caller, m: Method)
    ensures IsAdminOrReadOnly(c, m) <==> IsSafe(m) || IsStaff(c)
  {
  }

  /** A user other than staff passes IsAdminOrOwner exactly on its own profile. */
  lemma OwnerGate<K>(id: Id, obj: Profile<K>)
    ensures IsAdminOrOwner(Member(id, false), obj) <==> obj.user == id
  {
  }

  /**
   * A user other than staff passes IsAdminOrAssignedEmployee exactly when the
   * task is assigned to an employee row that this user owns.
   */
  lemma AssignedGate(id: Id, task: Task, employees: seq<Row<Employee>>)
    requires Ordered(employees)
    ensures IsAdminOrAssignedEmployee(Member(id, false), task, employees)
            <==> exists e :: Row(task.assignedTo, e) in employees && e.user == id
  {
    if e :| Row(task.assignedTo, e) in employees && e.user == id {
      FindRow(employees, task.assignedTo, e);
    }
  }
}
