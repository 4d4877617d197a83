/**
 * Request sequences a client can send, and what the handlers' contracts
 * promise about them taken together.
 */
module Scenarios {
  import opened Wrappers
  import opened Tables
  import opened Http
  import opened Models
  import opened Permissions
  import opened Validation
  import opened Store
  import CustomerViews
  import ProductViews
  import TaskViews
  import AccountViews

  /**
   * DELETE of an active customer, then GET of it and the staff list: the
   * row is still stored, but neither answer shows it.
   */
  method SoftDeleteThenRead(db: Db, admin: Caller, c: Caller, pk: Id)
    returns (deleted: int, fetched: int, listed: seq<Row<Customer>>)
    requires db.Valid() && IsStaff(admin) && ActiveFind(db.state.customers, pk).Some?
    modifies db
    ensures deleted == NO_CONTENT && fetched == NOT_FOUND
    ensures pk in Ids(db.state.customers)
    ensures forall x :: x in listed ==> x.id != pk
  {
    deleted := CustomerViews.DetailDelete(db, c, pk);
    var data;
    fetched, data := CustomerViews.DetailGet(db, c, pk);
    var status;
    status, listed := CustomerViews.ListGet(db, admin);
    forall x | x in listed ensures x.id != pk {
      FindRow(db.state.customers, x.id, x.val);
    }
  }

  /** A staff DELETE of a product, then a GET of it by anyone: 404, and no row keeps the key. */
  method HardDeleteThenRead(db: Db, admin: Caller, c: Caller, pk: Id)
    returns (deleted: int, fetched: int)
    requires db.Valid() && IsStaff(admin) && pk in Ids(db.state.products)
    modifies db
    ensures deleted == NO_CONTENT && fetched == NOT_FOUND
    ensures pk !in Ids(db.state.products)
  {
    deleted := ProductViews.DetailDelete(db, admin, pk);
    var data;
    fetched, data := ProductViews.DetailGet(db, c, pk);
  }

  /** A request that fails leaves the table it targets as it was, whoever sends it. */
  method FailedTaskUpdate(db: Db, c: Caller, pk: Id, d: TaskInput, now: Stamp) returns (status: int)
    requires db.Valid()
    modifies db
    ensures status != OK ==> db.state.tasks == old(db.state.tasks)
    ensures pk !in old(Ids(db.state.tasks)) ==> status == NOT_FOUND && db.state.tasks == old(db.state.tasks)
  {
    var data;
    status, data := TaskViews.DetailPut(db, c, pk, d, now);
  }

  /**
   * A registration under an unknown role, then one as a customer: the first
   * leaves no user behind, the second exactly one new user and one new
   * customer.
   */
  method RegisterTwice(db: Db, user: User, d: ProfileInput)
    returns (rejected: int, accepted: int)
    requires db.Valid()
    modifies db
    ensures rejected == BAD_REQUEST && accepted == CREATED
    ensures |db.state.users| == |old(db.state.users)| + 1 && |db.state.customers| == |old(db.state.customers)| + 1
    ensures old(db.state.nextUser) !in Ids(db.state.users)
  {
    var echo;
    rejected, echo := AccountViews.RegisterIntended(db, "manager", user, true, d);
    accepted, echo := AccountViews.RegisterIntended(db, "customer", user, true, d);
  }

  /**
   * The request body the registration endpoint documents: the user's data
   * nested under `user`, beside the profile fields. With a valid user and
   * role `customer`, the `user` key clashes in `objects.create`, which
   * raises TypeError: 500, the new user stays and no customer is stored.
   */
  method DocumentedRegistration(db: Db, user: User) returns (status: int)
    requires db.Valid()
    modifies db
    ensures status == SERVER_ERROR
    ensures db.state.users == old(db.state.users) + [Row(old(db.state.nextUser), user)]
    ensures db.state.customers == old(db.state.customers)
  {
    var d := ProfileInput(Malformed, Given(Some("123456789")), Given(Some("123 Main St")), Given(true), Absent);
    var echo;
    status, echo := AccountViews.Register(db, "customer", user, true, d);
  }
}
