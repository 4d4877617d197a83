/**
 * What the model serializers accept. A request body is typed per resource;
 * each writable field is absent, given, or malformed (a JSON value of the
 * wrong type or one that does not parse). Read-only fields (`id`, the owning
 * `user` of a profile, the timestamps) have no place in these payloads: the
 * serializers drop them, so no client can set them.
 *
 * Validation collects one error per failing field, never stopping at the
 * first, and is built from the field declarations: `max_length`,
 * `blank`/`null`, required or defaulted, choices and foreign keys.
 */
module Validation {
  import opened Wrappers
  import opened Tables
  import opened Models

  datatype Input<T> = Absent | Given(value: T) | Malformed

  datatype Field = UserField | Phone | Address | IsActive | Position
                 | Name | Price | Description | Title | StatusField | AssignedTo | DueDate

  /** How a text column becomes a serializer field. */
  datatype TextRule = TextRule(required: bool, nullable: bool, blankable: bool, maxLength: Option<nat>)

  /** `CharField(max_length=15, blank=True, null=True)` */
  const PHONE := TextRule(false, true, true, Some(PHONE_MAX_LENGTH))
  /** `TextField(blank=True, null=True)` */
  const FREE_TEXT := TextRule(false, true, true, None)
  /** `CharField(max_length=100, blank=True, null=True)` */
  const POSITION := TextRule(false, true, true, Some(POSITION_MAX_LENGTH))
  /** `CharField(max_length=100)` */
  const PRODUCT_NAME := TextRule(true, false, false, Some(PRODUCT_NAME_MAX_LENGTH))
  /** `CharField(max_length=100)` */
  const TASK_TITLE := TextRule(true, false, false, Some(TASK_TITLE_MAX_LENGTH))
  /** `TextField()` */
  const TASK_DESCRIPTION := TextRule(true, false, false, None)

  /** The characters Python's `str.isspace` accepts, which `str.strip()` removes. */
  predicate IsSpace(c: char) {
    || c == ' ' || '\t' <= c <= '\r' || '\U{1c}' <= c <= '\U{1f}' || c == '\U{85}' || c == '\U{a0}'
    || c == '\U{1680}' || '\U{2000}' <= c <= '\U{200a}' || c == '\U{2028}' || c == '\U{2029}'
    || c == '\U{202f}' || c == '\U{205f}' || c == '\U{3000}'
  }

  /** `s` with its leading whitespace removed. */
  function TrimStart(s: string): (r: string)
    ensures |r| <= |s|
  {
    if s != "" && IsSpace(s[0]) then TrimStart(s[1..]) else s
  }

  /** `s` with its trailing whitespace removed. */
  function TrimEnd(s: string): (r: string)
    ensures |r| <= |s|
  {
    if s != "" && IsSpace(s[|s| - 1]) then TrimEnd(s[..|s| - 1]) else s
  }

  /**
   * `str.strip()`, which every serializer CharField (`trim_whitespace`
   * defaults to true) applies before its blank and length checks and before
   * the value is stored.
   */
  function Trim(s: string): (r: string)
    ensures |r| <= |s|
  {
    TrimEnd(TrimStart(s))
  }

  /** What `TrimStart` drops is whitespace, and what it keeps is a suffix starting at a non-space. */
  lemma {:induction false} TrimStartSpec(s: string)
    ensures TrimStart(s) == s[|s| - |TrimStart(s)|..]
    ensures TrimStart(s) == "" || !IsSpace(TrimStart(s)[0])
    ensures forall i :: 0 <= i < |s| - |TrimStart(s)| ==> IsSpace(s[i])
  {
    if s != "" && IsSpace(s[0]) {
      TrimStartSpec(s[1..]);
    }
  }

  /** What `TrimEnd` drops is whitespace, and what it keeps is a prefix ending at a non-space. */
  lemma {:induction false} TrimEndSpec(s: string)
    ensures TrimEnd(s) == s[..|TrimEnd(s)|]
    ensures TrimEnd(s) == "" || !IsSpace(TrimEnd(s)[|TrimEnd(s)| - 1])
    ensures forall i :: |TrimEnd(s)| <= i < |s| ==> IsSpace(s[i])
  {
    if s != "" && IsSpace(s[|s| - 1]) {
      TrimEndSpec(s[..|s| - 1]);
    }
  }

  /**
   * The trimmed text is empty exactly when the input is all whitespace, and
   * otherwise starts and ends with a non-space.
   */
  lemma TrimSpec(s: string)
    ensures Trim(s) == "" <==> forall i :: 0 <= i < |s| ==> IsSpace(s[i])
    ensures Trim(s) == "" || (!IsSpace(Trim(s)[0]) && !IsSpace(Trim(s)[|Trim(s)| - 1]))
  {
    var t := TrimStart(s);
    TrimStartSpec(s);
    TrimEndSpec(t);
    if TrimEnd(t) != "" {
      assert t[0] == TrimEnd(t)[0];
      assert !IsSpace(s[|s| - |t|]);
    }
  }

  /** Trimming twice is trimming once, so a stored value is already clean. */
  lemma TrimIdempotent(s: string)
    ensures Trim(Trim(s)) == Trim(s)
  {
    TrimSpec(s);
    var r := Trim(s);
    if r != "" {
      assert TrimStart(r) == r;
      assert TrimEnd(r) == r;
    }
  }

  /** The text a CharField keeps: null stays null, a string is trimmed. */
  function Clean(v: Option<string>): Option<string> {
    match v
    case None => None
    case Some(s) => Some(Trim(s))
  }

  /**
   * One text field. A partial update accepts an absent required field; a
   * submitted string is judged, like it is stored, after trimming. Every
   * CharField also refuses a NUL character (its `ProhibitNullCharactersValidator`);
   * that validator runs only on non-blank text, and blank text holds no NUL,
   * so the test is on the string as submitted.
   */
  predicate TextAccepted(rule: TextRule, x: Input<Option<string>>, partial: bool) {
    match x
    case Absent => partial || !rule.required
    case Malformed => false
    case Given(None) => rule.nullable
    case Given(Some(s)) =>
      && (rule.blankable || Trim(s) != "")
      && (rule.maxLength.None? || |Trim(s)| <= rule.maxLength.value)
      && '\0' !in s
  }

  /** A field with no rule beyond its type: boolean, number, date. */
  predicate PlainAccepted<T>(x: Input<T>, required: bool, partial: bool) {
    match x
    case Absent => partial || !required
    case Malformed => false
    case Given(_) => true
  }

  /** A stored text value within a rule's bounds. */
  predicate TextFits(rule: TextRule, v: Option<string>) {
    match v
    case None => rule.nullable
    case Some(s) => (rule.blankable || s != "") && (rule.maxLength.None? || |s| <= rule.maxLength.value)
  }

  /** The submitted value, or `dflt` when the field was not submitted. */
  function Or<T>(x: Input<T>, dflt: T): T {
    if x.Given? then x.value else dflt
  }

  /** The submitted non-null text, trimmed, or `dflt` when none was submitted. */
  function TextOr(x: Input<Option<string>>, dflt: string): string {
    match x
    case Given(Some(s)) => Trim(s)
    case _ => dflt
  }

  /** The submitted nullable text, cleaned, or `dflt` when none was submitted. */
  function CleanOr(x: Input<Option<string>>, dflt: Option<string>): Option<string> {
    if x.Given? then Clean(x.value) else dflt
  }

  // ------------------------------------------------------------- profiles

  datatype ProfileInput = ProfileInput(user: Input<Id>, phone: Input<Option<string>>,
                                       address: Input<Option<string>>, isActive: Input<bool>,
                                       position: Input<Option<string>>)

  /** The errors of the fields shared by both profile serializers; `user` is read-only there. */
  function ProfileErrors(d: ProfileInput, partial: bool): (errs: set<Field>)
    ensures Phone in errs <==> !TextAccepted(PHONE, d.phone, partial)
    ensures Address in errs <==> !TextAccepted(FREE_TEXT, d.address, partial)
    ensures IsActive in errs <==> !PlainAccepted(d.isActive, false, partial)
    ensures errs <= {Phone, Address, IsActive}
  {
    (if TextAccepted(PHONE, d.phone, partial) then {} else {Phone})
    + (if TextAccepted(FREE_TEXT, d.address, partial) then {} else {Address})
    + (if PlainAccepted(d.isActive, false, partial) then {} else {IsActive})
  }

  /** CustomerSerializer: `position` is not one of its fields and is ignored. */
  function CustomerErrors(d: ProfileInput, partial: bool): (errs: set<Field>)
    ensures Phone in errs <==> !TextAccepted(PHONE, d.phone, partial)
    ensures Address in errs <==> !TextAccepted(FREE_TEXT, d.address, partial)
    ensures IsActive in errs <==> !PlainAccepted(d.isActive, false, partial)
    ensures UserField !in errs && Position !in errs
    ensures errs <= {Phone, Address, IsActive}
  {
    ProfileErrors(d, partial)
  }

  /** EmployeeSerializer adds `position`. */
  function EmployeeErrors(d: ProfileInput, partial: bool): (errs: set<Field>)
    ensures Position in errs <==> !TextAccepted(POSITION, d.position, partial)
    ensures errs - {Position} == ProfileErrors(d, partial)
  {
    ProfileErrors(d, partial) + (if TextAccepted(POSITION, d.position, partial) then {} else {Position})
  }

  /**
   * The owner of a profile being created: required, an existing user, and
   * not already owning a profile of this kind (the one-to-one uniqueness).
   */
  function OwnerErrors(x: Input<Id>, users: set<Id>, owners: set<Id>): (errs: set<Field>)
    ensures errs == {} <==> x.Given? && x.value in users && x.value !in owners
    ensures errs <= {UserField}
  {
    match x
    case Given(u) => if u in users && u !in owners then {} else {UserField}
    case _ => {UserField}
  }

  /** A stored profile within the column bounds. */
  predicate ProfileFits<K>(p: Profile<K>) {
    TextFits(PHONE, p.phone) && TextFits(FREE_TEXT, p.address)
  }

  predicate EmployeeFits(e: Employee) {
    ProfileFits(e) && TextFits(POSITION, e.extra.position)
  }

  /** `objects.create` from validated data: unsupplied fields take their defaults (null, `is_active=True`). */
  function NewProfile<K>(d: ProfileInput, owner: Id, extra: K): (p: Profile<K>)
    ensures p.user == owner && p.extra == extra
    ensures p.isActive <==> d.isActive != Given(false)
    ensures p.phone == (if d.phone.Given? then Clean(d.phone.value) else None)
    ensures p.address == (if d.address.Given? then Clean(d.address.value) else None)
  {
    Profile(owner, CleanOr(d.phone, None), CleanOr(d.address, None), Or(d.isActive, true), extra)
  }

  function NewEmployeeExtra(d: ProfileInput): EmployeeExtra {
    EmployeeExtra(CleanOr(d.position, None))
  }

  /** A partial update of the shared fields: what was not submitted keeps its value, the owner never changes. */
  function ApplyProfile<K>(p: Profile<K>, d: ProfileInput): (r: Profile<K>)
    ensures r.user == p.user && r.extra == p.extra
    ensures !d.phone.Given? ==> r.phone == p.phone
    ensures !d.address.Given? ==> r.address == p.address
    ensures !d.isActive.Given? ==> r.isActive == p.isActive
    ensures d.phone.Given? ==> r.phone == Clean(d.phone.value)
    ensures d.address.Given? ==> r.address == Clean(d.address.value)
    ensures d.isActive.Given? ==> r.isActive == d.isActive.value
  {
    p.(phone := CleanOr(d.phone, p.phone), address := CleanOr(d.address, p.address), isActive := Or(d.isActive, p.isActive))
  }

  /** The same partial update, extended to `position`. */
  function ApplyEmployee(e: Employee, d: ProfileInput): (r: Employee)
    ensures r.user == e.user
    ensures r.phone == ApplyProfile(e, d).phone && r.address == ApplyProfile(e, d).address
    ensures r.isActive == ApplyProfile(e, d).isActive
    ensures !d.position.Given? ==> r.extra.position == e.extra.position
    ensures d.position.Given? ==> r.extra.position == Clean(d.position.value)
  {
    ApplyProfile(e, d).(extra := EmployeeExtra(CleanOr(d.position, e.extra.position)))
  }

  /** What passes validation is stored within the column bounds. */
  lemma ValidProfileFits<K>(p: Profile<K>, d: ProfileInput, owner: Id, extra: K)
    ensures ProfileErrors(d, false) == {} ==> ProfileFits(NewProfile(d, owner, extra))
    ensures ProfileErrors(d, true) == {} && ProfileFits(p) ==> ProfileFits(ApplyProfile(p, d))
  {
  }

  lemma ValidEmployeeFits(e: Employee, d: ProfileInput, owner: Id)
    ensures EmployeeErrors(d, false) == {} ==> EmployeeFits(NewProfile(d, owner, NewEmployeeExtra(d)))
    ensures EmployeeErrors(d, true) == {} && EmployeeFits(e) ==> EmployeeFits(ApplyEmployee(e, d))
  {
  }

  // ------------------------------------------------------------- products

  datatype ProductInput = ProductInput(name: Input<Option<string>>, price: Input<int>,
                                       description: Input<Option<string>>)

  /** ProductSerializer; `price` is a FloatField with no bound of its own. */
  function ProductErrors(d: ProductInput, partial: bool): (errs: set<Field>)
    ensures Name in errs <==> !TextAccepted(PRODUCT_NAME, d.name, partial)
    ensures Price in errs <==> !PlainAccepted(d.price, true, partial)
    ensures Description in errs <==> !TextAccepted(FREE_TEXT, d.description, partial)
    ensures errs <= {Name, Price, Description}
  {
    (if TextAccepted(PRODUCT_NAME, d.name, partial) then {} else {Name})
    + (if PlainAccepted(d.price, true, partial) then {} else {Price})
    + (if TextAccepted(FREE_TEXT, d.description, partial) then {} else {Description})
  }

  /** A name of spaces only is blank once trimmed, so it is refused like an empty one. */
  lemma SpacesNameRefused(s: string, price: int)
    requires forall i :: 0 <= i < |s| ==> IsSpace(s[i])
    ensures ProductErrors(ProductInput(Given(Some(s)), Given(price), Absent), false) == {Name}
  {
    TrimSpec(s);
  }

  /** A text with a NUL character is refused, even where blank text is allowed. */
  lemma NulTextRefused(rule: TextRule, s: string, partial: bool)
    requires '\0' in s
    ensures !TextAccepted(rule, Given(Some(s)), partial)
    ensures CustomerErrors(ProfileInput(Absent, Given(Some(s)), Absent, Absent, Absent), partial) == {Phone}
  {
  }

  predicate ProductFits(p: Product) {
    TextFits(PRODUCT_NAME, Some(p.name)) && TextFits(FREE_TEXT, p.description)
  }

  /** A new product; both timestamps are the server's clock. */
  function NewProduct(d: ProductInput, now: Stamp): (p: Product)
    requires ProductErrors(d, false) == {}
    ensures d.name.Given? && d.name.value.Some? && p.name == Trim(d.name.value.value) && p.name != ""
    ensures d.price == Given(p.price)
    ensures p.description == (if d.description.Given? then Clean(d.description.value) else None)
    ensures p.createdAt == now && p.updatedAt == now
    ensures ProductFits(p)
  {
    Product(TextOr(d.name, ""), Or(d.price, 0), CleanOr(d.description, None), now, now)
  }

  /** A partial update; `created_at` is kept and `updated_at` is refreshed by the server. */
  function ApplyProduct(p: Product, d: ProductInput, now: Stamp): (r: Product)
    requires ProductErrors(d, true) == {}
    ensures r.name == TextOr(d.name, p.name) && r.price == Or(d.price, p.price)
    ensures r.description == CleanOr(d.description, p.description)
    ensures r.createdAt == p.createdAt && r.updatedAt == now
    ensures ProductFits(p) ==> ProductFits(r)
  {
    Product(TextOr(d.name, p.name), Or(d.price, p.price), CleanOr(d.description, p.description), p.createdAt, now)
  }

  // ---------------------------------------------------------------- tasks

  datatype TaskInput = TaskInput(title: Input<Option<string>>, description: Input<Option<string>>,
                                 status: Input<string>, assignedTo: Input<Id>, dueDate: Input<Date>)

  /** A status is optional (it has a default) and must be one of the choices. */
  predicate StatusAccepted(x: Input<string>) {
    match x
    case Absent => true
    case Malformed => false
    case Given(n) => ParseStatus(n).Some?
  }

  /** `assigned_to` must name an existing employee (active or not: the default manager is unfiltered). */
  predicate AssigneeAccepted(x: Input<Id>, employees: set<Id>, partial: bool) {
    match x
    case Absent => partial
    case Malformed => false
    case Given(e) => e in employees
  }

  /** TaskSerializer. */
  function TaskErrors(d: TaskInput, partial: bool, employees: set<Id>): (errs: set<Field>)
    ensures Title in errs <==> !TextAccepted(TASK_TITLE, d.title, partial)
    ensures Description in errs <==> !TextAccepted(TASK_DESCRIPTION, d.description, partial)
    ensures StatusField in errs <==> !StatusAccepted(d.status)
    ensures AssignedTo in errs <==> !AssigneeAccepted(d.assignedTo, employees, partial)
    ensures DueDate in errs <==> !PlainAccepted(d.dueDate, true, partial)
    ensures errs <= {Title, Description, StatusField, AssignedTo, DueDate}
  {
    (if TextAccepted(TASK_TITLE, d.title, partial) then {} else {Title})
    + (if TextAccepted(TASK_DESCRIPTION, d.description, partial) then {} else {Description})
    + (if StatusAccepted(d.status) then {} else {StatusField})
    + (if AssigneeAccepted(d.assignedTo, employees, partial) then {} else {AssignedTo})
    + (if PlainAccepted(d.dueDate, true, partial) then {} else {DueDate})
  }

  predicate TaskFits(t: Task) {
    TextFits(TASK_TITLE, Some(t.title)) && TextFits(TASK_DESCRIPTION, Some(t.description))
  }

  /** The status a valid submission selects, or `dflt` when none was submitted. */
  function StatusOr(x: Input<string>, dflt: Status): Status {
    match x
    case Given(n) => if ParseStatus(n).Some? then ParseStatus(n).value else dflt
    case _ => dflt
  }

  /** A new task; an unsubmitted status is `todo`. */
  function NewTask(d: TaskInput, employees: set<Id>, now: Stamp): (t: Task)
    requires TaskErrors(d, false, employees) == {}
    ensures d.title.Given? && d.title.value.Some? && t.title == Trim(d.title.value.value) && t.title != ""
    ensures d.description.Given? && d.description.value.Some?
            && t.description == Trim(d.description.value.value) && t.description != ""
    ensures d.status.Absent? ==> t.status == DEFAULT_STATUS
    ensures d.status.Given? ==> StatusName(t.status) == d.status.value
    ensures d.assignedTo == Given(t.assignedTo) && t.assignedTo in employees
    ensures d.dueDate == Given(t.dueDate)
    ensures t.createdAt == now && t.updatedAt == now
    ensures TaskFits(t)
  {
    Task(TextOr(d.title, ""), TextOr(d.description, ""), StatusOr(d.status, DEFAULT_STATUS),
         Or(d.assignedTo, 0), Or(d.dueDate, Date(0)), now, now)
  }

  /** A partial update of a task; the timestamps are the server's. */
  function ApplyTask(t: Task, d: TaskInput, employees: set<Id>, now: Stamp): (r: Task)
    requires TaskErrors(d, true, employees) == {}
    ensures r.title == TextOr(d.title, t.title) && r.description == TextOr(d.description, t.description)
    ensures d.status.Absent? ==> r.status == t.status
    ensures d.status.Given? ==> StatusName(r.status) == d.status.value
    ensures r.assignedTo == Or(d.assignedTo, t.assignedTo)
    ensures d.assignedTo.Given? ==> r.assignedTo in employees
    ensures r.dueDate == Or(d.dueDate, t.dueDate)
    ensures r.createdAt == t.createdAt && r.updatedAt == now
    ensures TaskFits(t) ==> TaskFits(r)
  {
    Task(TextOr(d.title, t.title), TextOr(d.description, t.description), StatusOr(d.status, t.status),
         Or(d.assignedTo, t.assignedTo), Or(d.dueDate, t.dueDate), t.createdAt, now)
  }
}
