/**
 * The records of the CRM and their lifecycle: the abstract Profile shared by
 * Customer and Employee (one-to-one with a user, soft-deleted through
 * `is_active`), Product, Task (with its status choices and its reference to
 * an Employee), the field bounds the serializers enforce, and the deletion
 * cascades of the foreign keys.
 */
module Models {
  import opened Wrappers
  import opened Tables

  // ---------------------------------------------------------------- bounds

  const PHONE_MAX_LENGTH := 15
  const POSITION_MAX_LENGTH := 100
  const PRODUCT_NAME_MAX_LENGTH := 100
  const TASK_TITLE_MAX_LENGTH := 100
  const TASK_STATUS_MAX_LENGTH := 20

  // --------------------------------------------------------------- records

  /** A server-assigned timestamp (`auto_now` / `auto_now_add`), opaque. */
  datatype Stamp = Stamp(tick: nat)

  /** A calendar date, opaque. */
  datatype Date = Date(day: nat)

  datatype User = User(username: string, email: string)

  /** The fields a concrete profile adds to the shared shape. */
  datatype CustomerExtra = CustomerExtra
  datatype EmployeeExtra = EmployeeExtra(position: Option<string>)

  /** The abstract Profile model: owner, contact fields and the active flag, plus the kind's own fields. */
  datatype Profile<K> = Profile(user: Id, phone: Option<string>, address: Option<string>, isActive: bool, extra: K)

  type Customer = Profile<CustomerExtra>
  type Employee = Profile<EmployeeExtra>

  datatype Product = Product(name: string, price: int, description: Option<string>, createdAt: Stamp, updatedAt: Stamp)

  datatype Status = Todo | InProgress | Done

  datatype Task = Task(title: string, description: string, status: Status, assignedTo: Id,
                       dueDate: Date, createdAt: Stamp, updatedAt: Stamp)

  /** `STATUS_CHOICES`: the stored value of each choice. */
  function StatusName(s: Status): (n: string)
    ensures 0 < |n| <= TASK_STATUS_MAX_LENGTH
  {
    match s
    case Todo => "todo"
    case InProgress => "in_progress"
    case Done => "done"
  }

  /** The choice a submitted status string selects, if it is one of the three. */
  function ParseStatus(n: string): (r: Option<Status>)
    ensures r.Some? ==> StatusName(r.value) == n
  {
    if n == "todo" then Some(Todo)
    else if n == "in_progress" then Some(InProgress)
    else if n == "done" then Some(Done)
    else None
  }

  /** Every choice parses back to itself, so the stored value and the choice determine each other. */
  lemma ParseStatusName(s: Status)
    ensures ParseStatus(StatusName(s)) == Some(s)
  {
  }

  const DEFAULT_STATUS := Todo

  // ------------------------------------------------------------ lifecycle

  /** `Profile.soft_delete`: clear the active flag and keep every other field. */
  function SoftDeleted<K>(p: Profile<K>): (r: Profile<K>)
    ensures !r.isActive
    ensures r.(isActive := p.isActive) == p
  {
    p.(isActive := false)
  }

  lemma SoftDeleteIdempotent<K>(p: Profile<K>)
    ensures SoftDeleted(SoftDeleted(p)) == SoftDeleted(p)
  {
  }

  /** `ActiveManager.get_queryset` / `filter(is_active=True)`: the active profiles, in table order. */
  function ActiveRows<K(==,!new)>(t: seq<Row<Profile<K>>>): (r: seq<Row<Profile<K>>>)
    ensures forall x :: x in r <==> x in t && x.val.isActive
    ensures Ordered(t) ==> Ordered(r)
  {
    Filter(t, (p: Profile<K>) => p.isActive)
  }

  /** `objects.get(pk=pk, is_active=True)`: the profile with that key, provided it is active. */
  function ActiveFind<K(==,!new)>(t: seq<Row<Profile<K>>>, pk: Id): (r: Option<Profile<K>>)
    ensures r.Some? ==> Row(pk, r.value) in t && r.value.isActive
    ensures r.None? && Ordered(t) ==> forall i :: 0 <= i < |t| && t[i].id == pk ==> !t[i].val.isActive
  {
    match Find(t, pk)
    case Some(p) =>
      if p.isActive then Some(p) else None
    case None => None
  }

  /** The detail lookup finds exactly what the active view lists. */
  lemma ActiveFindIsActiveView<K(!new)>(t: seq<Row<Profile<K>>>, pk: Id)
    requires Ordered(t)
    ensures ActiveFind(t, pk) == Find(ActiveRows(t), pk)
  {
    var a := ActiveRows(t);
    match Find(t, pk)
    case None =>
    case Some(p) =>
      assert Row(pk, p) in t;
      FindRow(t, pk, p);
      if p.isActive {
        FindRow(a, pk, p);
      } else if Find(a, pk).Some? {
        FindRow(t, pk, Find(a, pk).value);
      }
  }

  /** Soft-deleting the row `pk` keeps the row but hides it from the detail lookup and the active view. */
  lemma SoftDeleteHides<K(!new)>(t: seq<Row<Profile<K>>>, pk: Id, p: Profile<K>)
    requires Ordered(t) && ActiveFind(t, pk) == Some(p)
    ensures pk in Ids(Replace(t, pk, SoftDeleted(p)))
    ensures Find(Replace(t, pk, SoftDeleted(p)), pk) == Some(SoftDeleted(p))
    ensures ActiveFind(Replace(t, pk, SoftDeleted(p)), pk).None?
    ensures forall i :: 0 <= i < |ActiveRows(Replace(t, pk, SoftDeleted(p)))| ==>
              ActiveRows(Replace(t, pk, SoftDeleted(p)))[i].id != pk
  {
    var r := Replace(t, pk, SoftDeleted(p));
    FindReplace(t, pk, SoftDeleted(p), pk);
    ReplaceKeys(t, pk, SoftDeleted(p), 0);
    var a := ActiveRows(r);
    forall i | 0 <= i < |a| ensures a[i].id != pk {
      if a[i].id == pk {
        FindRow(r, pk, a[i].val);
      }
    }
  }

  /**
   * What separates the two deletes: after a soft delete every key is still
   * in the table, the deleted one included; after a hard delete that key is
   * gone and every other key remains.
   */
  lemma SoftVersusHardDelete<K(!new)>(t: seq<Row<Profile<K>>>, pk: Id, p: Profile<K>)
    requires Ordered(t) && ActiveFind(t, pk) == Some(p)
    ensures Ids(Replace(t, pk, SoftDeleted(p))) == Ids(t) && pk in Ids(t)
    ensures Ids(Remove(t, pk)) == Ids(t) - {pk} && pk !in Ids(Remove(t, pk))
  {
    ReplaceKeys(t, pk, SoftDeleted(p), 0);
    RemoveIds(t, pk, 0);
    assert Row(pk, p) in t;
  }

  // ------------------------------------------------------ table integrity

  /** Every profile's `user` names an existing user. */
  ghost predicate OwnedBy<K>(t: seq<Row<Profile<K>>>, users: set<Id>) {
    forall i :: 0 <= i < |t| ==> t[i].val.user in users
  }

  /** The one-to-one `user` field: no two profiles of one kind share a user. */
  ghost predicate OnePerUser<K>(t: seq<Row<Profile<K>>>) {
    forall i, j :: 0 <= i < |t| && 0 <= j < |t| && t[i].val.user == t[j].val.user ==> i == j
  }

  /** The users that already own a profile of this kind. */
  function Owners<K>(t: seq<Row<Profile<K>>>): set<Id> {
    set i | 0 <= i < |t| :: t[i].val.user
  }

  /** Every task's `assigned_to` names an existing employee. */
  ghost predicate AssignedWithin(tasks: seq<Row<Task>>, employees: set<Id>) {
    forall i :: 0 <= i < |tasks| ==> tasks[i].val.assignedTo in employees
  }

  /** The user owning employee `eid`, if there is such an employee: `task.assigned_to.user`. */
  function EmployeeUser(employees: seq<Row<Employee>>, eid: Id): (r: Option<Id>)
    ensures r.Some? <==> eid in Ids(employees)
    ensures r.Some? ==> exists e :: Row(eid, e) in employees && e.user == r.value
  {
    match Find(employees, eid)
    case Some(e) => Some(e.user)
    case None => None
  }

  /** Replacing a profile by one with the same owner keeps ownership and one-to-one-ness. */
  lemma ReplaceSameOwner<K>(t: seq<Row<Profile<K>>>, pk: Id, was: Profile<K>, now: Profile<K>, users: set<Id>)
    requires Ordered(t) && Find(t, pk) == Some(was) && now.user == was.user
    ensures OwnedBy(t, users) ==> OwnedBy(Replace(t, pk, now), users)
    ensures OnePerUser(t) ==> OnePerUser(Replace(t, pk, now))
  {
    var r := Replace(t, pk, now);
    forall i | 0 <= i < |t| && t[i].id == pk ensures r[i].val.user == t[i].val.user {
      FindRow(t, pk, t[i].val);
    }
  }

  /** Adding a profile for a user that exists and owns no profile of this kind keeps the table consistent. */
  lemma InsertNewOwner<K>(t: seq<Row<Profile<K>>>, next: Id, p: Profile<K>, users: set<Id>)
    requires Keyed(t, next) && p.user in users && p.user !in Owners(t)
    ensures OwnedBy(t, users) ==> OwnedBy(Insert(t, next, p), users)
    ensures OnePerUser(t) ==> OnePerUser(Insert(t, next, p))
  {
    var r := Insert(t, next, p);
    forall i | 0 <= i < |t| ensures r[i].val.user != p.user {
      assert t[i].val.user in Owners(t);
    }
  }

  // ------------------------------------------------------------ cascades

  /** The employee rows owned by a user. */
  function EmployeesOf(employees: seq<Row<Employee>>, uid: Id): set<Id> {
    set i | 0 <= i < |employees| && employees[i].val.user == uid :: employees[i].id
  }

  /** The profiles left when the rows owned by `uid` cascade away. */
  function WithoutOwner<K(==,!new)>(t: seq<Row<Profile<K>>>, uid: Id): (r: seq<Row<Profile<K>>>)
    ensures forall x :: x in r <==> x in t && x.val.user != uid
    ensures Ordered(t) ==> Ordered(r)
  {
    Filter(t, (p: Profile<K>) => p.user != uid)
  }

  lemma WithoutOwnerKeyed<K(!new)>(t: seq<Row<Profile<K>>>, uid: Id, next: Id)
    requires Keyed(t, next)
    ensures Keyed(WithoutOwner(t, uid), next)
  {
  }

  /** The tasks left when the employees `gone` cascade away. */
  function WithoutAssignees(tasks: seq<Row<Task>>, gone: set<Id>): (r: seq<Row<Task>>)
    ensures forall x :: x in r <==> x in tasks && x.val.assignedTo !in gone
    ensures Ordered(tasks) ==> Ordered(r)
  {
    Filter(tasks, (tk: Task) => tk.assignedTo !in gone)
  }

  lemma WithoutAssigneesKeyed(tasks: seq<Row<Task>>, gone: set<Id>, next: Id)
    requires Keyed(tasks, next)
    ensures Keyed(WithoutAssignees(tasks, gone), next)
  {
  }

  /** A filtered profile table is still one-to-one. */
  lemma FilterOnePerUser<K(!new)>(t: seq<Row<Profile<K>>>, keep: Profile<K> -> bool)
    requires Ordered(t) && OnePerUser(t)
    ensures OnePerUser(Filter(t, keep))
  {
    var r := Filter(t, keep);
    forall i, j | 0 <= i < |r| && 0 <= j < |r| && r[i].val.user == r[j].val.user ensures i == j {
      var a :| 0 <= a < |t| && t[a] == r[i];
      var b :| 0 <= b < |t| && t[b] == r[j];
      assert a == b;
    }
  }

  /**
   * Deleting user `uid` with its cascades keeps every profile owned by an
   * existing user, one per user, and every task assigned to an existing employee.
   */
  lemma DeleteUserIntegrity(users: seq<Row<User>>, customers: seq<Row<Customer>>,
                            employees: seq<Row<Employee>>, tasks: seq<Row<Task>>, uid: Id)
    requires Ordered(users) && Ordered(customers) && Ordered(employees)
    requires OwnedBy(customers, Ids(users)) && OnePerUser(customers)
    requires OwnedBy(employees, Ids(users)) && OnePerUser(employees)
    requires AssignedWithin(tasks, Ids(employees))
    ensures OwnedBy(WithoutOwner(customers, uid), Ids(Remove(users, uid)))
    ensures OnePerUser(WithoutOwner(customers, uid))
    ensures OwnedBy(WithoutOwner(employees, uid), Ids(Remove(users, uid)))
    ensures OnePerUser(WithoutOwner(employees, uid))
    ensures AssignedWithin(WithoutAssignees(tasks, EmployeesOf(employees, uid)), Ids(WithoutOwner(employees, uid)))
  {
    WithoutOwnerIntegrity(users, customers, uid);
    WithoutOwnerIntegrity(users, employees, uid);
    WithoutAssigneesIntegrity(employees, tasks, uid);
  }

  /** One profile table after the cascade: still owned by surviving users, one each. */
  lemma WithoutOwnerIntegrity<K(!new)>(users: seq<Row<User>>, t: seq<Row<Profile<K>>>, uid: Id)
    requires Ordered(t) && OwnedBy(t, Ids(users)) && OnePerUser(t)
    ensures OwnedBy(WithoutOwner(t, uid), Ids(Remove(users, uid)))
    ensures OnePerUser(WithoutOwner(t, uid))
  {
    RemoveIds(users, uid, 0);
    FilterOnePerUser(t, (p: Profile<K>) => p.user != uid);
    var r := WithoutOwner(t, uid);
    forall i | 0 <= i < |r| ensures r[i].val.user in Ids(users) - {uid} {
      assert r[i] in t;
    }
  }

  /** The tasks left after the cascade are assigned to employees that are left. */
  lemma WithoutAssigneesIntegrity(employees: seq<Row<Employee>>, tasks: seq<Row<Task>>, uid: Id)
    requires AssignedWithin(tasks, Ids(employees))
    ensures AssignedWithin(WithoutAssignees(tasks, EmployeesOf(employees, uid)), Ids(WithoutOwner(employees, uid)))
  {
    var emps := WithoutOwner(employees, uid);
    var tsks := WithoutAssignees(tasks, EmployeesOf(employees, uid));
    forall i | 0 <= i < |tsks| ensures tsks[i].val.assignedTo in Ids(emps) {
      var eid := tsks[i].val.assignedTo;
      assert tsks[i] in tasks;
      var k :| 0 <= k < |employees| && employees[k].id == eid;
      assert employees[k].val.user != uid;
      assert employees[k] in emps;
    }
  }

  /** After the cascade no profile of this kind names the deleted user. */
  lemma WithoutOwnerDisowns<K(!new)>(t: seq<Row<Profile<K>>>, uid: Id)
    ensures uid !in Owners(WithoutOwner(t, uid))
  {
    var r := WithoutOwner(t, uid);
    forall i | 0 <= i < |r| ensures r[i].val.user != uid {
      assert r[i] in r;
    }
  }

  /** A user that owns nothing: its cascades delete nothing. */
  lemma {:induction false} DeleteUnownedUser(customers: seq<Row<Customer>>, employees: seq<Row<Employee>>,
                                             tasks: seq<Row<Task>>, uid: Id)
    requires uid !in Owners(customers) && uid !in Owners(employees)
    ensures WithoutOwner(customers, uid) == customers
    ensures WithoutOwner(employees, uid) == employees
    ensures WithoutAssignees(tasks, EmployeesOf(employees, uid)) == tasks
  {
    forall i | 0 <= i < |customers| ensures customers[i].val.user != uid {
      assert customers[i].val.user in Owners(customers);
    }
    forall i | 0 <= i < |employees| ensures employees[i].val.user != uid {
      assert employees[i].val.user in Owners(employees);
    }
    FilterAll(customers, (p: Customer) => p.user != uid);
    FilterAll(employees, (p: Employee) => p.user != uid);
    assert EmployeesOf(employees, uid) == {};
    FilterAll(tasks, (tk: Task) => tk.assignedTo !in EmployeesOf(employees, uid));
  }

  /**
   * `on_delete=CASCADE` on `Task.assigned_to`: deleting employee `eid`
   * deletes it and every task assigned to it.
   */
  function DeleteEmployee(employees: seq<Row<Employee>>, tasks: seq<Row<Task>>, eid: Id)
    : (r: (seq<Row<Employee>>, seq<Row<Task>>))
    ensures r.0 == Remove(employees, eid)
    ensures forall x :: x in r.1 <==> x in tasks && x.val.assignedTo != eid
  {
    (Remove(employees, eid), WithoutAssignees(tasks, {eid}))
  }

  /** The cascade leaves no task pointing at a missing employee. */
  lemma DeleteEmployeeIntegrity(employees: seq<Row<Employee>>, tasks: seq<Row<Task>>, eid: Id)
    requires AssignedWithin(tasks, Ids(employees))
    ensures AssignedWithin(DeleteEmployee(employees, tasks, eid).1, Ids(DeleteEmployee(employees, tasks, eid).0))
  {
    RemoveIds(employees, eid, 0);
  }
}
