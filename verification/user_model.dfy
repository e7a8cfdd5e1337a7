/** The User schema: a login, with a role, a tuition name for admins and,
    for students, the tuition they belong to. */
module UserModel {
  import opened Common

  datatype Role = ADMIN | STUDENT

  /** A stored user document. `password` holds the stored hash. */
  datatype User = User(
    id: Id,
    email: string,
    password: string,
    role: Role,
    tuitionName: Option<string>,
    tuitionId: Option<Id>)

  datatype UserInput = UserInput(
    email: Option<string>,
    password: Option<string>,
    role: Option<string>,
    tuitionName: Option<string>,
    tuitionId: Option<Id>)

  /** The role enum, with the default STUDENT for a missing value. */
  function RoleOf(s: Option<string>): (r: Option<Role>)
    ensures r == Some(ADMIN) <==> s == Some("ADMIN")
    ensures r == Some(STUDENT) <==> s.None? || s == Some("STUDENT")
  {
    match s
    case None => Some(STUDENT)
    case Some(v) => if v == "ADMIN" then Some(ADMIN) else if v == "STUDENT" then Some(STUDENT) else None
  }

  /** `tuitionName` is required by a function of the document: only when the
      role is ADMIN. */
  predicate TuitionNameRequired(role: Role)
  {
    role == ADMIN
  }

  predicate ValidUser(u: User)
  {
    u.email != "" && u.password != ""
    && (TuitionNameRequired(u.role) ==> Filled(u.tuitionName))
  }

  predicate AcceptsUser(input: UserInput)
  {
    Filled(input.email) && Filled(input.password) && RoleOf(input.role).Some?
    && (TuitionNameRequired(RoleOf(input.role).value) ==> Filled(input.tuitionName))
  }

  /** Validation and defaults of `User.create` (the unique index on email is
      checked by the store, see EmailsUnique). */
  function CreateUser(input: UserInput, id: Id): (r: Result<User>)
    ensures r.Ok? <==> AcceptsUser(input)
    ensures r.Ok? ==> ValidUser(r.value) && r.value.id == id
    ensures r.Ok? ==>
      && Some(r.value.email) == input.email && Some(r.value.password) == input.password
      && Some(r.value.role) == RoleOf(input.role)
      && r.value.tuitionName == input.tuitionName && r.value.tuitionId == input.tuitionId
  {
    if !Filled(input.email) then Err(Invalid("email"))
    else if !Filled(input.password) then Err(Invalid("password"))
    else match RoleOf(input.role)
      case None => Err(Invalid("role"))
      case Some(role) =>
        if TuitionNameRequired(role) && !Filled(input.tuitionName) then Err(Invalid("tuitionName"))
        else Ok(User(id, input.email.value, input.password.value, role, input.tuitionName, input.tuitionId))
  }

  /** An ADMIN without a tuition name is refused; the same user as a STUDENT
      (or with no role, which defaults to STUDENT) is accepted. */
  lemma TuitionNameOnlyForAdmin(email: string, password: string, id: Id)
    requires email != "" && password != ""
    ensures CreateUser(UserInput(Some(email), Some(password), Some("ADMIN"), None, None), id).Err?
    ensures CreateUser(UserInput(Some(email), Some(password), Some("STUDENT"), None, None), id).Ok?
    ensures CreateUser(UserInput(Some(email), Some(password), None, None, None), id).value.role == STUDENT
  {
  }

  /** The unique index on email. */
  ghost predicate EmailsUnique(users: map<Id, User>)
  {
    forall a, b :: a in users && b in users && a != b ==> users[a].email != users[b].email
  }

  predicate EmailTaken(users: map<Id, User>, email: string)
  {
    exists k :: k in users && users[k].email == email
  }

  /** Adding a user keeps emails unique when its email is not taken. */
  lemma AddUserKeepsEmailsUnique(users: map<Id, User>, id: Id, u: User)
    requires EmailsUnique(users) && id !in users && !EmailTaken(users, u.email)
    ensures EmailsUnique(users[id := u])
  {
  }
}
