/**
 * Registration and login. The user serializer and its password handling
 * are outside this model: its verdict on the submitted user is the
 * `userValid` parameter. The authentication backend and the token library
 * are outside it too: `authenticate`'s answer and the issued token pair are
 * parameters of `Login`.
 */
module AccountViews {
  import opened Wrappers
  import opened Tables
  import opened Http
  import opened Models
  import opened Validation
  import opened Store

  /** The `profile` part of the 201 answer. */
  datatype ProfileEcho = ProfileEcho(phone: Option<string>, address: Option<string>, isActive: bool)

  function Echo<K>(p: Profile<K>): ProfileEcho {
    ProfileEcho(p.phone, p.address, p.isActive)
  }

  /**
   * What `objects.create(user=user, **profile_data)` stores: the submitted
   * values as they are, with no validation and no trimming; `is_active`
   * defaults to true and the texts to null.
   */
  function CreatedProfile<K>(d: ProfileInput, owner: Id, extra: K): (p: Profile<K>)
    ensures p.user == owner && p.extra == extra
    ensures p.isActive <==> d.isActive != Given(false)
  {
    Profile(owner, Or(d.phone, None), Or(d.address, None), Or(d.isActive, true), extra)
  }

  function CreatedEmployeeExtra(d: ProfileInput): EmployeeExtra {
    EmployeeExtra(Or(d.position, None))
  }

  /**
   * `objects.create(user=user, **profile_data)` passes every key of the body
   * as a keyword: a `user` key repeats the owner, and a Customer has no
   * `position` column, so either makes the call raise TypeError.
   */
  predicate CreateClashes(role: string, d: ProfileInput) {
    !d.user.Absent? || (role == "customer" && !d.position.Absent?)
  }

  /** Text that is already trimmed is stored as a validated create would store it. */
  lemma CreatedMatchesValidated<K>(d: ProfileInput, owner: Id, extra: K)
    requires forall s :: d.phone == Given(Some(s)) ==> Trim(s) == s
    requires forall s :: d.address == Given(Some(s)) ==> Trim(s) == s
    ensures CreatedProfile(d, owner, extra) == NewProfile(d, owner, extra)
  {
  }

  /** Surrounding spaces survive registration, where a profile update would trim them. */
  lemma CreatedKeepsSpaces(owner: Id)
    ensures var d := ProfileInput(Absent, Given(Some(" 555 ")), Absent, Absent, Absent);
            CreatedProfile(d, owner, CustomerExtra).phone == Some(" 555 ")
            && NewProfile(d, owner, CustomerExtra).phone == Some("555")
  {
    assert TrimStart(" 555 ") == TrimStart("555 ") == "555 ";
    assert TrimEnd("555 ") == TrimEnd("555") == "555";
  }

  /** A freshly created user owns no profile yet. */
  lemma FreshUserOwnsNothing<K>(users: seq<Row<User>>, t: seq<Row<Profile<K>>>, uid: Id)
    requires OwnedBy(t, Ids(users)) && uid !in Ids(users)
    ensures uid !in Owners(t)
  {
    forall i | 0 <= i < |t| ensures t[i].val.user != uid {
      assert t[i].val.user in Ids(users);
    }
  }

  /**
   * `register`: an invalid user gives 400 and stores nothing. Otherwise the
   * user is created, then a Customer or Employee profile for it, by role,
   * and the answer is 201 echoing the profile. Any other role deletes the
   * new user again and gives 400: every table ends as it began, and only
   * the users' auto-increment counter has moved on.
   */
  method Register(db: Db, role: string, user: User, userValid: bool, d: ProfileInput)
    returns (status: int, profile: Option<ProfileEcho>)
    requires db.Valid()
    modifies db
    ensures db.Valid()
    ensures !userValid ==> status == BAD_REQUEST && profile.None? && db.state == old(db.state)
    ensures userValid && (role == "customer" || role == "employee") && CreateClashes(role, d) ==>
              && status == SERVER_ERROR && profile.None?
              && db.state == old(db.state).(
                   users := old(db.state.users) + [Row(old(db.state.nextUser), user)],
                   nextUser := old(db.state.nextUser) + 1)
    ensures userValid && role == "customer" && !CreateClashes(role, d) ==>
              && status == CREATED
              && profile == Some(Echo(CreatedProfile(d, old(db.state.nextUser), CustomerExtra)))
              && db.state == old(db.state).(
                   users := old(db.state.users) + [Row(old(db.state.nextUser), user)],
                   nextUser := old(db.state.nextUser) + 1,
                   customers := old(db.state.customers)
                     + [Row(old(db.state.nextCustomer), CreatedProfile(d, old(db.state.nextUser), CustomerExtra))],
                   nextCustomer := old(db.state.nextCustomer) + 1)
    ensures userValid && role == "employee" && !CreateClashes(role, d) ==>
              && status == CREATED
              && profile == Some(Echo(CreatedProfile(d, old(db.state.nextUser), CreatedEmployeeExtra(d))))
              && db.state == old(db.state).(
                   users := old(db.state.users) + [Row(old(db.state.nextUser), user)],
                   nextUser := old(db.state.nextUser) + 1,
                   employees := old(db.state.employees)
                     + [Row(old(db.state.nextEmployee), CreatedProfile(d, old(db.state.nextUser), CreatedEmployeeExtra(d)))],
                   nextEmployee := old(db.state.nextEmployee) + 1)
    ensures userValid && role != "customer" && role != "employee" ==>
              && status == BAD_REQUEST && profile.None?
              && db.state == old(db.state).(nextUser := old(db.state.nextUser) + 1)
  {
    if !userValid {
      return BAD_REQUEST, None;
    }
    ghost var users0 := db.state.users;
    FreshUserOwnsNothing(db.state.users, db.state.customers, db.state.nextUser);
    FreshUserOwnsNothing(db.state.users, db.state.employees, db.state.nextUser);
    var uid := db.CreateUser(user);
    if (role == "customer" || role == "employee") && CreateClashes(role, d) {
      // The TypeError ends the request; the saved user stays.
      return SERVER_ERROR, None;
    }
    if role == "customer" {
      var p := CreatedProfile(d, uid, CustomerExtra);
      var id := db.InsertCustomer(p);
      return CREATED, Some(Echo(p));
    } else if role == "employee" {
      var p := CreatedProfile(d, uid, CreatedEmployeeExtra(d));
      var id := db.InsertEmployee(p);
      return CREATED, Some(Echo(p));
    }
    // The compensating delete: the user owns nothing, so only its row goes.
    DeleteUnownedIsRowDelete(db.state, uid);
    RemoveInserted(users0, uid, user);
    db.DeleteUser(uid);
    return BAD_REQUEST, None;
  }

  /**
   * `register` as its documented request intends: the profile is created
   * from the profile fields alone, so neither the nested `user` entry nor a
   * `position` sent for a customer reaches `objects.create`.
   */
  method RegisterIntended(db: Db, role: string, user: User, userValid: bool, d: ProfileInput)
    returns (status: int, profile: Option<ProfileEcho>)
    requires db.Valid()
    modifies db
    ensures db.Valid()
    ensures !userValid ==> status == BAD_REQUEST && profile.None? && db.state == old(db.state)
    ensures userValid && role == "customer" ==>
              && status == CREATED
              && profile == Some(Echo(CreatedProfile(d, old(db.state.nextUser), CustomerExtra)))
              && db.state == old(db.state).(
                   users := old(db.state.users) + [Row(old(db.state.nextUser), user)],
                   nextUser := old(db.state.nextUser) + 1,
                   customers := old(db.state.customers)
                     + [Row(old(db.state.nextCustomer), CreatedProfile(d, old(db.state.nextUser), CustomerExtra))],
                   nextCustomer := old(db.state.nextCustomer) + 1)
    ensures userValid && role == "employee" ==>
              && status == CREATED
              && profile == Some(Echo(CreatedProfile(d, old(db.state.nextUser), CreatedEmployeeExtra(d))))
              && db.state == old(db.state).(
                   users := old(db.state.users) + [Row(old(db.state.nextUser), user)],
                   nextUser := old(db.state.nextUser) + 1,
                   employees := old(db.state.employees)
                     + [Row(old(db.state.nextEmployee), CreatedProfile(d, old(db.state.nextUser), CreatedEmployeeExtra(d)))],
                   nextEmployee := old(db.state.nextEmployee) + 1)
    ensures userValid && role != "customer" && role != "employee" ==>
              && status == BAD_REQUEST && profile.None?
              && db.state == old(db.state).(nextUser := old(db.state.nextUser) + 1)
  {
    var fields := d.(user := Absent, position := if role == "customer" then Absent else d.position);
    assert !CreateClashes(role, fields);
    assert CreatedProfile(fields, db.state.nextUser, CustomerExtra) == CreatedProfile(d, db.state.nextUser, CustomerExtra);
    status, profile := Register(db, role, user, userValid, fields);
  }

  /** The token pair issued for a user; opaque. */
  datatype Tokens = Tokens(refresh: string, access: string)

  datatype LoginReply = LoginReply(status: int, user: Option<User>, tokens: Option<Tokens>)

  /**
   * `login`, given what `authenticate` answered and the pair the token
   * library would issue: 401 and no tokens on failure, 200 with the user
   * and both tokens on success.
   */
  function Login(authenticated: Option<User>, issued: Tokens): (r: LoginReply)
    ensures r.status == UNAUTHORIZED <==> authenticated.None?
    ensures r.status == OK <==> authenticated.Some?
    ensures r.tokens.Some? <==> r.status == OK
    ensures r.status == OK ==> r.user == authenticated && r.tokens == Some(issued)
  {
    match authenticated
    case None => LoginReply(UNAUTHORIZED, None, None)
    case Some(u) => LoginReply(OK, Some(u), Some(issued))
  }
}
