/**
 * The database the handlers run against: one table per model, each with its
 * auto-increment counter, and the integrity the foreign keys guarantee.
 */
module Store {
  import opened Wrappers
  import opened Tables
  import opened Models

  /** The contents of every table, and the next key of each. */
  datatype State = State(users: seq<Row<User>>, customers: seq<Row<Customer>>,
                         employees: seq<Row<Employee>>, products: seq<Row<Product>>,
                         tasks: seq<Row<Task>>, nextUser: Id, nextCustomer: Id,
                         nextEmployee: Id, nextProduct: Id, nextTask: Id)

  /**
   * Keys are ordered and below their counters; every profile belongs to an
   * existing user, at most one per user and kind; every task is assigned
   * to an existing employee.
   */
  ghost predicate Consistent(s: State) {
    && Keyed(s.users, s.nextUser)
    && Keyed(s.customers, s.nextCustomer)
    && Keyed(s.employees, s.nextEmployee)
    && Keyed(s.products, s.nextProduct)
    && Keyed(s.tasks, s.nextTask)
    && OwnedBy(s.customers, Ids(s.users)) && OnePerUser(s.customers)
    && OwnedBy(s.employees, Ids(s.users)) && OnePerUser(s.employees)
    && AssignedWithin(s.tasks, Ids(s.employees))
  }

  /**
   * What `user.delete()` leaves: the user row goes, the one-to-one profiles
   * cascade from it, and the tasks cascade from its employee profile. The
   * result is consistent, and no profile names the user any more.
   */
  function UserDeleted(s: State, uid: Id): (r: State)
    requires Consistent(s)
    ensures Consistent(r)
    ensures Ids(r.users) == Ids(s.users) - {uid}
    ensures uid !in Owners(r.customers) && uid !in Owners(r.employees)
    ensures r.products == s.products
    ensures r.nextUser == s.nextUser && r.nextCustomer == s.nextCustomer && r.nextEmployee == s.nextEmployee
    ensures r.nextProduct == s.nextProduct && r.nextTask == s.nextTask
  {
    DeleteUserIntegrity(s.users, s.customers, s.employees, s.tasks, uid);
    RemoveIds(s.users, uid, s.nextUser);
    WithoutOwnerKeyed(s.customers, uid, s.nextCustomer);
    WithoutOwnerKeyed(s.employees, uid, s.nextEmployee);
    WithoutAssigneesKeyed(s.tasks, EmployeesOf(s.employees, uid), s.nextTask);
    WithoutOwnerDisowns(s.customers, uid);
    WithoutOwnerDisowns(s.employees, uid);
    s.(users := Remove(s.users, uid), customers := WithoutOwner(s.customers, uid),
       employees := WithoutOwner(s.employees, uid),
       tasks := WithoutAssignees(s.tasks, EmployeesOf(s.employees, uid)))
  }

  /** Deleting a user that owns no profile removes its row and nothing else. */
  lemma DeleteUnownedIsRowDelete(s: State, uid: Id)
    requires Consistent(s) && uid !in Owners(s.customers) && uid !in Owners(s.employees)
    ensures UserDeleted(s, uid) == s.(users := Remove(s.users, uid))
  {
    DeleteUnownedUser(s.customers, s.employees, s.tasks, uid);
  }

  class Db {
    var state: State

    ghost predicate Valid()
      reads this
    {
      Consistent(state)
    }

    /** An empty database; auto-increment keys start at 1. */
    constructor ()
      ensures Valid()
      ensures state == State([], [], [], [], [], 1, 1, 1, 1, 1)
    {
      state := State([], [], [], [], [], 1, 1, 1, 1, 1);
    }

    /** `User.save()` for a new user: one more row, under the next key. */
    method CreateUser(u: User) returns (uid: Id)
      requires Valid()
      modifies this
      ensures Valid()
      ensures uid == old(state.nextUser) && uid !in old(Ids(state.users))
      ensures state == old(state).(users := old(state.users) + [Row(uid, u)], nextUser := uid + 1)
    {
      uid := state.nextUser;
      state := state.(users := Insert(state.users, uid, u), nextUser := uid + 1);
    }

    /** `user.delete()`, with its cascades. */
    method DeleteUser(uid: Id)
      requires Valid()
      modifies this
      ensures Valid()
      ensures state == UserDeleted(old(state), uid)
    {
      state := UserDeleted(state, uid);
    }

    /** `Customer.save()` for a new customer, owned by an existing user without one. */
    method InsertCustomer(c: Customer) returns (id: Id)
      requires Valid() && c.user in Ids(state.users) && c.user !in Owners(state.customers)
      modifies this
      ensures Valid()
      ensures id == old(state.nextCustomer) && id !in old(Ids(state.customers))
      ensures state == old(state).(customers := old(state.customers) + [Row(id, c)], nextCustomer := id + 1)
    {
      InsertNewOwner(state.customers, state.nextCustomer, c, Ids(state.users));
      id := state.nextCustomer;
      state := state.(customers := Insert(state.customers, id, c), nextCustomer := id + 1);
    }

    /** `Customer.save()` for an existing row; the owner is the one it had. */
    method UpdateCustomer(pk: Id, c: Customer)
      requires Valid() && Find(state.customers, pk).Some? && Find(state.customers, pk).value.user == c.user
      modifies this
      ensures Valid()
      ensures state == old(state).(customers := Replace(old(state.customers), pk, c))
    {
      ReplaceSameOwner(state.customers, pk, Find(state.customers, pk).value, c, Ids(state.users));
      ReplaceKeys(state.customers, pk, c, state.nextCustomer);
      state := state.(customers := Replace(state.customers, pk, c));
    }

    /** `soft_delete()` on a stored customer: `is_active` cleared, then saved. */
    method SoftDeleteCustomer(pk: Id)
      requires Valid() && Find(state.customers, pk).Some?
      modifies this
      ensures Valid()
      ensures state == old(state).(customers := Replace(old(state.customers), pk,
                                                        SoftDeleted(old(Find(state.customers, pk)).value)))
    {
      UpdateCustomer(pk, SoftDeleted(Find(state.customers, pk).value));
    }

    /** `Employee.save()` for a new employee, owned by an existing user without one. */
    method InsertEmployee(e: Employee) returns (id: Id)
      requires Valid() && e.user in Ids(state.users) && e.user !in Owners(state.employees)
      modifies this
      ensures Valid()
      ensures id == old(state.nextEmployee) && id !in old(Ids(state.employees))
      ensures state == old(state).(employees := old(state.employees) + [Row(id, e)], nextEmployee := id + 1)
    {
      InsertNewOwner(state.employees, state.nextEmployee, e, Ids(state.users));
      id := state.nextEmployee;
      state := state.(employees := Insert(state.employees, id, e), nextEmployee := id + 1);
    }

    /** `Employee.save()` for an existing row; the owner is the one it had. */
    method UpdateEmployee(pk: Id, e: Employee)
      requires Valid() && Find(state.employees, pk).Some? && Find(state.employees, pk).value.user == e.user
      modifies this
      ensures Valid()
      ensures state == old(state).(employees := Replace(old(state.employees), pk, e))
    {
      ReplaceSameOwner(state.employees, pk, Find(state.employees, pk).value, e, Ids(state.users));
      ReplaceKeys(state.employees, pk, e, state.nextEmployee);
      state := state.(employees := Replace(state.employees, pk, e));
    }

    /** `soft_delete()` on a stored employee: `is_active` cleared, then saved. */
    method SoftDeleteEmployee(pk: Id)
      requires Valid() && Find(state.employees, pk).Some?
      modifies this
      ensures Valid()
      ensures state == old(state).(employees := Replace(old(state.employees), pk,
                                                        SoftDeleted(old(Find(state.employees, pk)).value)))
    {
      UpdateEmployee(pk, SoftDeleted(Find(state.employees, pk).value));
    }

    /** `Product.save()` for a new product. */
    method InsertProduct(p: Product) returns (id: Id)
      requires Valid()
      modifies this
      ensures Valid()
      ensures id == old(state.nextProduct) && id !in old(Ids(state.products))
      ensures state == old(state).(products := old(state.products) + [Row(id, p)], nextProduct := id + 1)
    {
      id := state.nextProduct;
      state := state.(products := Insert(state.products, id, p), nextProduct := id + 1);
    }

    /** `Product.save()` for an existing row. */
    method UpdateProduct(pk: Id, p: Product)
      requires Valid()
      modifies this
      ensures Valid()
      ensures state == old(state).(products := Replace(old(state.products), pk, p))
    {
      ReplaceKeys(state.products, pk, p, state.nextProduct);
      state := state.(products := Replace(state.products, pk, p));
    }

    /** `Product.delete()`: nothing refers to products, so nothing cascades. */
    method DeleteProduct(pk: Id)
      requires Valid()
      modifies this
      ensures Valid()
      ensures state == old(state).(products := Remove(old(state.products), pk))
    {
      RemoveIds(state.products, pk, state.nextProduct);
      state := state.(products := Remove(state.products, pk));
    }

    /** `Task.save()` for a new task assigned to an existing employee. */
    method InsertTask(t: Task) returns (id: Id)
      requires Valid() && t.assignedTo in Ids(state.employees)
      modifies this
      ensures Valid()
      ensures id == old(state.nextTask) && id !in old(Ids(state.tasks))
      ensures state == old(state).(tasks := old(state.tasks) + [Row(id, t)], nextTask := id + 1)
    {
      id := state.nextTask;
      state := state.(tasks := Insert(state.tasks, id, t), nextTask := id + 1);
    }

    /** `Task.save()` for an existing row, still assigned to an existing employee. */
    method UpdateTask(pk: Id, t: Task)
      requires Valid() && t.assignedTo in Ids(state.employees)
      modifies this
      ensures Valid()
      ensures state == old(state).(tasks := Replace(old(state.tasks), pk, t))
    {
      ReplaceKeys(state.tasks, pk, t, state.nextTask);
      state := state.(tasks := Replace(state.tasks, pk, t));
    }

    /** `Task.delete()`: nothing refers to tasks, so nothing cascades. */
    method DeleteTask(pk: Id)
      requires Valid()
      modifies this
      ensures Valid()
      ensures state == old(state).(tasks := Remove(old(state.tasks), pk))
    {
      RemoveIds(state.tasks, pk, state.nextTask);
      state := state.(tasks := Remove(state.tasks, pk));
    }
  }
}
