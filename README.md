# CRM backend — a verified model of its request handlers

The system is a small customer-relationship backend built on Django and
Django REST framework. It keeps users, customer and employee profiles (one of
each kind per user, soft-deleted by clearing `is_active`), products and
tasks assigned to employees. Clients reach it through REST endpoints guarded
by four permission classes. Registration creates a user and then a profile
for the requested role, deleting the user again when the role is unknown.
Login authenticates a user and answers with a JWT pair.

This project models, in Dafny:

- the permission predicates (`Permissions`);
- the models, their managers, the soft delete and the foreign-key cascades (`Models`);
- the field rules the model serializers enforce (`Validation`);
- the database as one object holding every table and auto-increment counter,
  whose methods keep referential integrity (`Store`);
- the handlers of the customer, employee, product and task views
  (`CustomerViews`, `EmployeeViews`, `ProductViews`, `TaskViews`) and of
  registration and login (`AccountViews`), as methods on that database;
- request sequences whose combined effect follows from the handlers' contracts (`Scenarios`).

A table is a sequence of rows in key order. Keys strictly increase and stay
below the table's counter, so a key is never reused. A caller is the
anonymous user or a member with an id and a staff flag. A request body is
typed per resource: each writable field is absent, given or malformed.

The detail views fetch their object through their own `get_object`. They
never call `check_object_permissions`, so `IsAdminOrOwner` and
`IsAdminOrAssignedEmployee` never run there, and their `has_permission` is
the default that admits everyone. The model follows that code: the customer,
employee and task detail handlers ignore the caller. The product detail
handlers check it only through the `IsAdminOrReadOnly` class gate. The only
staff checks inside handlers are the task POST and DELETE ones.

## Model

| member | source | states |
|---|---|---|
| Http.DeniedStatus | customer/views.py:12-13 | a refused request answers 401 to the anonymous user (the JWT authenticator sends a challenge) and 403 to a signed-in user |
| Permissions.IsAdminOrOwner | base/permissions.py:7-8 | defined as: the user is staff, or is the object's `user` |
| Permissions.IsAdmin | base/permissions.py:14-15 | defined as: the user is staff (the anonymous user never is) |
| Permissions.IsAdminOrAssignedEmployee | base/permissions.py:21-22 | defined as: the user is staff, or owns the employee row the task is assigned to |
| Permissions.IsAdminOrReadOnly | base/permissions.py:28-33 | defined as: the method is GET, HEAD or OPTIONS, or the user is a staff member |
| Permissions.StaffPassesAll | base/permissions.py:7-33 | a staff user passes all four permission classes, for every method and object |
| Permissions.AnonymousPassesNothing | base/permissions.py:7-33 | the anonymous user fails IsAdmin, IsAdminOrOwner and IsAdminOrAssignedEmployee, and passes IsAdminOrReadOnly exactly for GET, HEAD and OPTIONS |
| Permissions.ReadOnlyGate | base/permissions.py:28-33 | IsAdminOrReadOnly admits a request exactly when the method is safe or the user is staff |
| Permissions.OwnerGate | base/permissions.py:7-8 | a non-staff user passes IsAdminOrOwner exactly when it is the object's `user` |
| Permissions.AssignedGate | base/permissions.py:21-22 | a non-staff user passes IsAdminOrAssignedEmployee exactly when the task's `assigned_to` is an employee row that user owns |
| Models.StatusName | base/models.py:58-62 | every status choice has a non-empty stored value within the column's 20 characters |
| Models.ParseStatus | base/models.py:58-62 | a submitted status string is accepted only as the stored value of the choice it selects |
| Models.ParseStatusName | base/models.py:58-62 | choices and stored values determine each other: each choice's value parses back to that choice |
| Models.SoftDeleted | base/models.py:16-18 | `soft_delete` clears `is_active` and leaves every other field as it was |
| Models.SoftDeleteIdempotent | base/models.py:16-18 | soft-deleting twice is the same as soft-deleting once |
| Models.ActiveRows | base/models.py:4-6 | the active manager's queryset holds exactly the active rows, in key order |
| Models.ActiveFind | customer/views.py:96-100 | `get(pk=pk, is_active=True)` answers a row of the table that is active; when it answers nothing, no row with that key is active |
| Models.ActiveFindIsActiveView | base/models.py:4-6 | the detail lookup finds exactly what the active queryset contains under that key |
| Models.SoftDeleteHides | base/models.py:16-18 | after a soft delete the row is still stored under its key, holding the inactive profile, but neither the detail lookup nor the active list shows it |
| Models.SoftVersusHardDelete | base/models.py:16-18 | a soft delete keeps every key, the deleted one included, while a hard delete removes exactly that key |
| Models.EmployeeUser | base/models.py:67 | `task.assigned_to.user` is defined exactly for an existing employee row and is that row's owner |
| Models.ReplaceSameOwner | base/models.py:9 | saving a profile with an unchanged owner keeps every profile owned by an existing user, one per user |
| Models.InsertNewOwner | base/models.py:9 | adding a profile for an existing user who has none of that kind keeps the one-to-one constraint and ownership |
| Models.WithoutOwner | base/models.py:9 | the profile rows that survive `on_delete=CASCADE` from user `uid` are exactly those not owned by `uid`, in key order |
| Models.WithoutAssignees | base/models.py:67 | the tasks that survive the cascade from a set of deleted employees are exactly those assigned elsewhere, in key order |
| Models.FilterOnePerUser | base/models.py:9 | any sub-selection of a one-to-one profile table is still one-to-one |
| Models.DeleteUserIntegrity | base/models.py:9 | after a user and its cascades are deleted, every profile is owned by a surviving user, one per user, and every task is assigned to a surviving employee |
| Models.WithoutOwnerIntegrity | base/models.py:9 | the profile table left by the cascade is owned by surviving users and still one-to-one |
| Models.WithoutAssigneesIntegrity | base/models.py:67 | the tasks left by the cascade are assigned to employees that are left |
| Models.WithoutOwnerDisowns | base/models.py:9 | after the cascade no profile names the deleted user |
| Models.DeleteUnownedUser | account/views.py:93 | deleting a user who owns no profile cascades to nothing: the profile and task tables are unchanged |
| Models.DeleteEmployee | base/models.py:67 | deleting an employee removes its row and exactly the tasks assigned to it |
| Models.DeleteEmployeeIntegrity | base/models.py:67 | after that cascade no task points at a missing employee |
| Validation.Trim | customer/serializers.py:4-8 | the model serializer's text fields strip surrounding whitespace; the result is never longer than the input |
| Validation.TrimStartSpec | customer/serializers.py:4-8 | stripping the front keeps a suffix of the input that starts at a non-space, and everything dropped is whitespace |
| Validation.TrimEndSpec | customer/serializers.py:4-8 | stripping the end keeps a prefix of the input that ends at a non-space, and everything dropped is whitespace |
| Validation.TrimSpec | customer/serializers.py:4-8 | the trimmed text is empty exactly for all-whitespace input, and otherwise starts and ends with a non-space |
| Validation.TrimIdempotent | customer/serializers.py:4-8 | trimming a trimmed text changes nothing, so stored text is already clean |
| Validation.SpacesNameRefused | product/serializers.py:4-8 | every product name made only of whitespace (including the empty name) is refused as blank, and nothing else is reported |
| Validation.NulTextRefused | customer/serializers.py:4-8 | a text with a NUL character is refused under every text rule, so a customer phone holding one is the only error reported |
| Validation.ProfileErrors | base/models.py:10-12 | a profile field is reported exactly when it breaks its column's rule after trimming (phone at most 15 characters, both texts nullable and blankable and free of NUL characters, a boolean flag), and only those fields |
| Validation.CustomerErrors | customer/serializers.py:7-8 | the customer serializer reports exactly the failing phone, address and active flag (a text fails on length or a NUL character); `user` is read-only and `position` is not a field, so neither is ever reported |
| Validation.EmployeeErrors | employee/serializers.py:7-8 | the employee serializer adds `position` (at most 100 characters, no NUL character) to the shared fields and nothing else |
| Validation.OwnerErrors | base/models.py:9 | an owner is accepted exactly when it is submitted, names an existing user and that user has no profile of this kind |
| Validation.NewProfile | base/models.py:9-12 | a created profile belongs to the given owner and holds the submitted texts trimmed; unsubmitted fields take their defaults (null texts, `is_active` true) |
| Validation.ApplyProfile | customer/views.py:165-167 | a partial update changes exactly the submitted fields, texts trimmed, and never the owner |
| Validation.ApplyEmployee | employee/views.py:169-171 | the same partial update, with `position` changed, trimmed, exactly when it is submitted |
| Validation.ValidProfileFits | base/models.py:10-11 | what passes the profile validation, created or updated, is stored within the column bounds |
| Validation.ValidEmployeeFits | base/models.py:34 | what passes the employee validation, created or updated, is stored within the column bounds, `position` included |
| Validation.ProductErrors | base/models.py:44-46 | a product field is reported exactly when it breaks its rule (a name that is non-blank and at most 100 characters once trimmed, a number, a nullable description; neither text may hold a NUL character) |
| Validation.NewProduct | base/models.py:44-48 | a created product holds the submitted values, texts trimmed and the name non-empty; an unsubmitted description is null, and both timestamps are the server's clock |
| Validation.ApplyProduct | product/views.py:168-170 | a partial update changes the submitted fields, keeps `created_at`, sets `updated_at` to the clock and stays within the column bounds |
| Validation.TaskErrors | base/models.py:64-68 | a task field is reported exactly when it breaks its rule: title and description required, non-blank once trimmed and free of NUL characters, status one of the choices, `assigned_to` an existing employee, due date required |
| Validation.NewTask | base/models.py:64-70 | a created task holds the submitted values, title and description trimmed and non-empty; its status is `todo` when none was submitted, and its assignee exists |
| Validation.ApplyTask | taskboard/views.py:182-184 | a partial update changes the submitted fields, keeps `created_at` and sets `updated_at` to the clock |
| Store.Consistent | base/models.py:9 | defined as: keys ordered and below each counter; every profile owned by an existing user, at most one per user and kind (the one-to-one `user`); every task assigned to an existing employee (base/models.py:67) |
| Store.UserDeleted | base/models.py:9 | `user.delete()` with its cascades leaves a consistent database without that user, in which no profile names it; products and counters are unchanged |
| Store.DeleteUnownedIsRowDelete | account/views.py:93 | deleting a user who owns no profile removes its row and changes nothing else |
| Store.Db.CreateUser | account/views.py:86 | the new user takes the next key, which no user held before, and the rest of the database is unchanged |
| Store.Db.DeleteUser | account/views.py:93 | the database becomes the cascade result and stays consistent |
| Store.Db.InsertCustomer | account/views.py:89 | a customer for an existing user without one is added under the next key, keeping consistency |
| Store.Db.UpdateCustomer | customer/views.py:167 | the row is replaced in place with an owner-preserving value; nothing else changes |
| Store.Db.SoftDeleteCustomer | base/models.py:16-18 | the stored customer is replaced by its soft-deleted copy |
| Store.Db.InsertEmployee | account/views.py:91 | an employee for an existing user without one is added under the next key, keeping consistency |
| Store.Db.UpdateEmployee | employee/views.py:171 | the row is replaced in place with an owner-preserving value; nothing else changes |
| Store.Db.SoftDeleteEmployee | base/models.py:16-18 | the stored employee is replaced by its soft-deleted copy |
| Store.Db.InsertProduct | product/views.py:75 | the product is added under the next key; nothing else changes |
| Store.Db.UpdateProduct | product/views.py:170 | the product row is replaced in place; nothing else changes |
| Store.Db.DeleteProduct | product/views.py:214 | the product row is removed; nothing refers to products, so nothing else changes |
| Store.Db.InsertTask | taskboard/views.py:87 | a task assigned to an existing employee is added under the next key |
| Store.Db.UpdateTask | taskboard/views.py:184 | the task row is replaced in place, still assigned to an existing employee |
| Store.Db.DeleteTask | taskboard/views.py:233 | the task row is removed; nothing else changes |
| CustomerViews.ListGet | customer/views.py:37-50 | 200 exactly for staff, with exactly the active customers in key order; otherwise the denial status and no data |
| CustomerViews.ListPostAsWritten | customer/views.py:68-90 | as written: staff get 400 exactly for invalid data and 500 for valid data; no request ever gets 201 |
| CustomerViews.EmptyPayloadValid | customer/serializers.py:7-8 | an empty body passes the serializer, so a staff POST does reach the failing INSERT |
| CustomerViews.CreateErrors | customer/serializers.py:8 | with `user` writable, a create request is accepted exactly when the profile fields are valid and the owner exists and has no customer profile |
| CustomerViews.ListPost | customer/views.py:68-90 | staff get 201 exactly when the request has no errors, with one customer added under the next key and nothing else changed; otherwise 400 and no change |
| CustomerViews.DetailGet | customer/views.py:122-143 | 200 with an active stored customer of that key, or 404 when no row of that key is active |
| CustomerViews.DetailPut | customer/views.py:159-190 | 404 for a missing or inactive key, 400 for invalid data, both without change; otherwise 200 and the row holds the partial update |
| CustomerViews.DetailDelete | customer/views.py:205-224 | 204 exactly when the key names an active customer; the row then stays, inactive, and the lookup no longer finds it; otherwise 404 and no change |
| EmployeeViews.ListGet | employee/views.py:38-50 | 200 exactly for staff, with exactly the active employees in key order; otherwise the denial status and no data |
| EmployeeViews.ListPostAsWritten | employee/views.py:70-92 | as written: staff get 400 exactly for invalid data and 500 for valid data; no request ever gets 201 |
| EmployeeViews.EmptyPayloadValid | employee/serializers.py:7-8 | an empty body passes the serializer, so a staff POST does reach the failing INSERT |
| EmployeeViews.CreateErrors | employee/serializers.py:8 | with `user` writable, a create request is accepted exactly when the fields are valid and the owner exists and has no employee profile |
| EmployeeViews.ListPost | employee/views.py:70-92 | staff get 201 exactly when the request has no errors, with one employee added under the next key and nothing else changed; otherwise 400 and no change |
| EmployeeViews.DetailGet | employee/views.py:125-146 | 200 with an active stored employee of that key, or 404 when no row of that key is active |
| EmployeeViews.DetailPut | employee/views.py:163-194 | 404 for a missing or inactive key, 400 for invalid data, both without change; otherwise 200 and the row holds the partial update, `position` included |
| EmployeeViews.DetailDelete | employee/views.py:209-228 | 204 exactly when the key names an active employee; the row then stays, inactive; otherwise 404 and no change |
| ProductViews.ListGet | product/views.py:39-52 | the class gate admits every caller's GET, and every caller gets 200 and the whole table in key order |
| ProductViews.ListPost | product/views.py:69-91 | non-staff callers are refused; staff get 201 exactly for valid data, with one product added under the next key, otherwise 400 and no change |
| ProductViews.DetailGet | product/views.py:124-145 | the class gate admits every caller's GET, and every caller gets 200 exactly when the key exists, with its row, otherwise 404 |
| ProductViews.DetailPut | product/views.py:162-193 | non-staff callers are refused; 404 for a missing key, 400 for invalid data, both without change; otherwise 200 and the row holds the update |
| ProductViews.DetailDelete | product/views.py:208-228 | non-staff callers are refused; staff get 204 exactly when the key exists, and afterwards no row has the key; otherwise 404 and no change |
| TaskViews.AssignedTo | taskboard/views.py:48 | `filter(assigned_to__user=user)` keeps exactly the tasks whose employee row belongs to the user, in key order |
| TaskViews.AssignedToExactly | base/permissions.py:21-22 | the filtered list holds exactly the tasks IsAdminOrAssignedEmployee would let that non-staff user see |
| TaskViews.ListGet | taskboard/views.py:41-57 | staff get every task; another user gets exactly the tasks assigned to it, in key order; the anonymous user gets a server error |
| TaskViews.ListPost | taskboard/views.py:76-103 | non-staff callers, anonymous included, get 403 before validation; staff get 201 exactly for valid data, with one task added, otherwise 400 and no change |
| TaskViews.DetailGet | taskboard/views.py:138-159 | every caller gets 200 exactly when the key exists, with its row, otherwise 404 |
| TaskViews.DetailPut | taskboard/views.py:176-207 | any caller: 404 for a missing key, 400 for invalid data, both without change; otherwise 200 and the row holds the update |
| TaskViews.DetailDelete | taskboard/views.py:222-247 | non-staff callers get 403 whether or not the key exists; staff get 204 exactly when it exists, and that key is gone, otherwise 404 |
| AccountViews.CreatedProfile | account/views.py:87-90 | `objects.create` stores the given owner, and the active flag is false only when `false` was submitted (the column default is true) |
| AccountViews.CreatedMatchesValidated | account/views.py:87-90 | for text that is already trimmed, the unvalidated create stores what a validated create of the same body would store |
| AccountViews.CreatedKeepsSpaces | account/views.py:87-90 | a phone ` 555 ` is stored as sent at registration, where the serializer would store `555` |
| AccountViews.FreshUserOwnsNothing | account/views.py:86-91 | a user created just now owns no profile yet, so a profile can be created for it |
| AccountViews.CreateClashes | account/views.py:87-90 | defined as: a `user` key in the body, or a `position` key for a customer, makes `objects.create` raise TypeError |
| AccountViews.Register | account/views.py:75-111 | an invalid user gives 400 and no change; for `customer` or `employee`, a body with a `user` key (or `position` for a customer) gives 500 with the new user saved and no profile, and only a body without those keys gives 201 with exactly one new user and one new profile of that kind owned by it; any other role gives 400 with every table as it was and only the users' counter moved on |
| AccountViews.Login | account/views.py:154-179 | 401 with no tokens exactly when authentication fails; otherwise 200 with that user and the issued token pair |
| Tables.Insert | product/views.py:75 | an INSERT appends one row under the next key, which no row held, and keeps the keys ordered and below the counter |
| Tables.Replace | product/views.py:170 | an UPDATE keeps every row's key and position; the rows with that key hold the new value and every other row is untouched |
| Tables.Remove | product/views.py:214 | a DELETE keeps exactly the rows with another key, in their order |
| Tables.Filter | customer/views.py:41 | `filter()` keeps exactly the rows whose value passes the condition, in table order |
| Tables.Find | product/views.py:97-101 | `get(pk=pk)` finds a row exactly when the key is in the table, and what it finds is that row |
| Tables.FindRow | product/views.py:97-101 | on a table with increasing keys, a stored row is what the lookup of its key finds |
| Tables.FindReplace | product/views.py:170 | after an update the key finds the new value and every other key finds what it found before |
| Tables.FindRemove | product/views.py:214 | after a delete the key finds nothing and every other key finds what it found before |
| Tables.RemoveInserted | account/views.py:93 | deleting the row just inserted gives back the table as it was |
| Scenarios.SoftDeleteThenRead | customer/views.py:205-224 | a DELETE of an active customer, then a GET of it and the staff list: 204, then 404, the row still stored, and the list without it |
| Scenarios.HardDeleteThenRead | product/views.py:208-228 | a staff DELETE of a product, then a GET of it: 204, then 404, and no row keeps the key |
| Scenarios.FailedTaskUpdate | taskboard/views.py:176-207 | a task update that fails leaves the task table unchanged, whoever sends it |
| AccountViews.RegisterIntended | account/views.py:86-90 | with the profile created from the profile fields alone, a valid user under `customer` or `employee` always gives 201 with one new user and its new profile of that kind, stored as submitted; other outcomes as in `Register` |
| Scenarios.DocumentedRegistration | account/views.py:18-27 | the documented request body, with a valid user and role `customer`, gives 500; the user row is saved and no customer is |
| Scenarios.RegisterTwice | account/views.py:75-111 | under the intended create: an unknown role, then `customer`: 400, then 201; exactly one new user and one new customer in the end, and the first attempt's key was never reused |

## Left out

- Authentication: the JWT and Basic authenticators, `authenticate` and the token library are outside the model. The caller is a parameter, and so are the authentication answer and the token pair given to `Login`.
- account/serializers.py is not part of this model. Its verdict on the submitted user is the `userValid` parameter of `Register`.
- AccountViews.Register: the profile is created from the submitted profile fields as they are, with no validation and no trimming, as `objects.create` does. A `Malformed` field is treated as not submitted, where the database would coerce the value or fail. The body keys the model knows (`user`, `position`) are checked for the TypeError of `**profile_data`. Other keys that are not columns are not modelled, though they raise the same TypeError. The user's data is read from the body's own `user` entry (account/views.py:76). So for `customer` or `employee` with a valid user, a 201 needs a body without a `user` key, which the user serializer would have to accept as `{}`; an invalid user still gives 400, and an unknown role still gives 400 with the user deleted again. `userValid` and `user` are parameters independent of the profile fields. See Findings.
- Serializer internals: JSON parsing, type coercion and error message texts. The whitespace trimming of text fields is modelled, with Python's `str.isspace` characters, and so is every CharField's refusal of NUL characters. Stored values are bounded by `TextFits`, which states only the length and blank rules. A wrongly typed or unparseable value is the `Malformed` input, and errors are the set of failing fields.
- Validation.ProductErrors: `price` is a floating-point column. It is modelled as an integer with no bound, because the code declares no sign or range check.
- Timestamps (`auto_now`, `auto_now_add`) and dates come from the server clock, which is the `now` parameter. The two stamps of one save are taken as one instant, where Django reads the clock separately for each field.
- Transactions, concurrent requests and database errors other than the NOT NULL owner failure described under Findings.
- The admin site, URL routing and the OpenAPI schema decorators, which change no handler's behaviour.
- HEAD and OPTIONS handling by the framework. Only their part in IsAdminOrReadOnly is modelled.
- The `active_objects` manager is used by no handler, which filter `is_active` explicitly. `Models.ActiveRows` models both, since they agree.
- Store.Db.DeleteUser: only the users table and its cascades are modelled. `Models.DeleteEmployee` models the hard delete of an employee row on values, because no handler deletes an employee row outright.
- List order: no model declares `Meta.ordering` and no list view calls `order_by`, so the source leaves the order of every list answer to the database. The model chooses key order (the list methods' `Ordered` and `data == db.state.products` clauses); where the rows say "in key order", that is this choice.
- Response envelopes (`message`, `status` in the body) are not modelled. The status code and the data are.

## Findings

| source | as written | input that shows it | evidently intended | confidence | as-written member | corrected member |
|---|---|---|---|---|---|---|
| customer/views.py:72-74 | the serializer lists `user` as read-only (customer/serializers.py:8), so `save()` inserts a customer with no owner; the NOT NULL one-to-one column refuses it and the request ends in a server error | a staff POST with an empty body, which passes validation (`CustomerViews.EmptyPayloadValid`) | the owner is taken from the request, must exist and must not yet have a customer profile, and the customer is created with 201 | not executed | CustomerViews.ListPostAsWritten | CustomerViews.ListPost |
| employee/views.py:74-76 | the same for employees (employee/serializers.py:8): no POST can create an employee | a staff POST with an empty body (`EmployeeViews.EmptyPayloadValid`) | the owner is taken from the request, must exist and must not yet have an employee profile, and the employee is created with 201 | not executed | EmployeeViews.ListPostAsWritten | EmployeeViews.ListPost |
| account/views.py:86-90 | `objects.create(user=user, **profile_data)` passes the whole request body, whose `user` entry carries the new user's data, so the owner keyword is given twice and the call raises TypeError; the user row is already saved | the documented request body (account/views.py:18-27) with a valid user and role `customer` (`Scenarios.DocumentedRegistration`) | the profile is created from the profile fields alone and the answer is 201, as documented at account/views.py:30-41 | not executed | Scenarios.DocumentedRegistration | AccountViews.RegisterIntended |
