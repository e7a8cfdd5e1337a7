/** The Student schema: a student's profile, its link to a login (`user`)
    and to its tuition (`tuitionId`), and its billing fields. */
module StudentModel {
  import opened Common

  const DEFAULT_COLLEGE := "N/A"
  const DEFAULT_PHOTO := "https://cdn-icons-png.flaticon.com/512/3135/3135715.png"

  /** A stored student document; `createdAt` comes from `timestamps`. */
  datatype Student = Student(
    id: Id,
    user: Id,
    tuitionId: Id,
    name: string,
    fatherName: string,
    studentClass: string,
    collegeName: string,
    parentPhone: string,
    batch: string,
    feesPerMonth: int,
    photo: string,
    joiningDate: Date,
    createdAt: Date)

  /** The fields handed to `Student.create`. `feesPerMonth == None` stands for
      a missing value and for NaN, which Mongoose's number cast refuses. */
  datatype StudentInput = StudentInput(
    user: Option<Id>,
    tuitionId: Option<Id>,
    name: Option<string>,
    fatherName: Option<string>,
    studentClass: Option<string>,
    collegeName: Option<string>,
    parentPhone: Option<string>,
    batch: Option<string>,
    feesPerMonth: Option<int>,
    photo: Option<string>,
    joiningDate: Option<Date>)

  predicate AcceptsStudent(input: StudentInput)
  {
    && input.user.Some? && input.tuitionId.Some?
    && Filled(input.name) && Filled(input.fatherName) && Filled(input.studentClass)
    && Filled(input.parentPhone) && Filled(input.batch)
    && input.feesPerMonth.Some?
  }

  /** The invariant every stored student satisfies. */
  predicate ValidStudent(s: Student)
  {
    s.name != "" && s.fatherName != "" && s.studentClass != ""
    && s.parentPhone != "" && s.batch != ""
  }

  /** A default applies only when the value is undefined. */
  function OrDefault<T>(v: Option<T>, d: T): T
  {
    match v case None => d case Some(x) => x
  }

  /** Validation and defaults of `Student.create` at instant `now`. */
  function CreateStudent(input: StudentInput, id: Id, now: Date): (r: Result<Student>)
    ensures r.Ok? <==> AcceptsStudent(input)
    ensures r.Ok? ==> ValidStudent(r.value) && r.value.id == id && r.value.createdAt == now
    ensures r.Ok? ==>
      && Some(r.value.user) == input.user && Some(r.value.tuitionId) == input.tuitionId
      && Some(r.value.name) == input.name && Some(r.value.fatherName) == input.fatherName
      && Some(r.value.studentClass) == input.studentClass
      && Some(r.value.parentPhone) == input.parentPhone && Some(r.value.batch) == input.batch
      && Some(r.value.feesPerMonth) == input.feesPerMonth
    ensures r.Ok? ==>
      && (input.collegeName.None? ==> r.value.collegeName == DEFAULT_COLLEGE)
      && (input.collegeName.Some? ==> r.value.collegeName == input.collegeName.value)
      && (input.photo.None? ==> r.value.photo == DEFAULT_PHOTO)
      && (input.photo.Some? ==> r.value.photo == input.photo.value)
      && (input.joiningDate.None? ==> r.value.joiningDate == now)
      && (input.joiningDate.Some? ==> r.value.joiningDate == input.joiningDate.value)
  {
    if input.user.None? then Err(Invalid("user"))
    else if input.tuitionId.None? then Err(Invalid("tuitionId"))
    else if !Filled(input.name) then Err(Invalid("name"))
    else if !Filled(input.fatherName) then Err(Invalid("fatherName"))
    else if !Filled(input.studentClass) then Err(Invalid("studentClass"))
    else if !Filled(input.parentPhone) then Err(Invalid("parentPhone"))
    else if !Filled(input.batch) then Err(Invalid("batch"))
    else if input.feesPerMonth.None? then Err(Invalid("feesPerMonth"))
    else
      Ok(Student(id, input.user.value, input.tuitionId.value, input.name.value,
                 input.fatherName.value, input.studentClass.value,
                 OrDefault(input.collegeName, DEFAULT_COLLEGE),
                 input.parentPhone.value, input.batch.value, input.feesPerMonth.value,
                 OrDefault(input.photo, DEFAULT_PHOTO),
                 OrDefault(input.joiningDate, now), now))
  }

  /** Only an undefined value gets the default: an empty photo string is
      stored as the empty string, not as the placeholder. */
  lemma EmptyPhotoKept(input: StudentInput, id: Id, now: Date)
    requires AcceptsStudent(input) && input.photo == Some("")
    ensures CreateStudent(input, id, now).value.photo == ""
    ensures CreateStudent(input, id, now).value.photo != DEFAULT_PHOTO
  {
  }
}
