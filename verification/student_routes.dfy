/** The read-only routes of routes/student.js: `/my-status`, `/notices`
    and `/profile`. Each first finds the Student whose `user` is the
    caller, answers 404 without one, and otherwise runs its queries. */
module StudentRoutes {
  import opened Common
  import opened Query
  import opened FeesModel
  import opened AttendanceModel
  import opened StudentModel
  import opened NoticeModel
  import opened FeeCalc
  import opened AdminRoutes

  /** A route's answer: the payload, 404 when the caller has no Student, or
      500 when a query throws. */
  datatype Reply<T> = Found(value: T) | NotFound | Failed

  /** Whether `populate` refuses a path the schema does not declare. The
      version of Mongoose is not fixed by these files: strict populate is the
      default from Mongoose 6 on, and Mongoose 5 (or `strictPopulate: false`)
      leaves an undeclared path undefined. */
  datatype PopulateMode = StrictPopulate | LaxPopulate

  /** The tuition name both routes report: they read it through the path
      `admin`, which the Student schema does not have. */
  const DEFAULT_ACADEMY := "Academy"

  const NOTICE_LIMIT := 10

  /** `Student.findOne({ user: req.user.id })`. */
  function ProfileOf(students: seq<Student>, caller: Id): (r: Option<Student>)
    ensures r.Some? ==> r.value.user == caller && r.value in students
    ensures r.None? <==> forall i :: 0 <= i < |students| ==> students[i].user != caller
  {
    FindFirst(students, (s: Student) => s.user == caller)
  }

  /** The condition `"records.student": sid`: some mark names the student. */
  predicate HasMarkFor(sh: AttendanceSheet, sid: Id)
  {
    exists i :: 0 <= i < |sh.records| && sh.records[i].student == Some(sid)
  }

  /** The condition `"records.status": "Present"`: some mark, for anyone, is
      Present. */
  predicate HasPresentMark(sh: AttendanceSheet)
  {
    exists i :: 0 <= i < |sh.records| && sh.records[i].status == PRESENT
  }

  /** One mark that both names the student and is Present (what an
      `$elemMatch` on the two conditions would select). */
  predicate PresentMarkFor(sh: AttendanceSheet, sid: Id)
  {
    exists i :: 0 <= i < |sh.records| && sh.records[i].student == Some(sid) && sh.records[i].status == PRESENT
  }

  /** `Attendance.countDocuments({ "records.student": sid, "records.status": "Present" })`:
      each condition is matched on its own by some mark. There is no tuition
      condition. */
  function MyStatusAttendance(sheets: seq<AttendanceSheet>, sid: Id): (n: nat)
    ensures n <= |sheets|
    ensures (forall i :: 0 <= i < |sheets| ==> !HasMarkFor(sheets[i], sid) || !HasPresentMark(sheets[i])) ==> n == 0
  {
    var counted := Select(sheets, sh => HasMarkFor(sh, sid) && HasPresentMark(sh));
    assert counted != [] ==> exists j :: 0 <= j < |sheets| && sheets[j] == counted[0];
    |counted|
  }

  /** `Attendance.find({ "records.student": sid })`: every sheet that marks
      the student, whatever the status. */
  function ProfileAttendance(sheets: seq<AttendanceSheet>, sid: Id): (r: seq<AttendanceSheet>)
    ensures forall i :: 0 <= i < |r| ==> HasMarkFor(r[i], sid) && r[i] in sheets
    ensures forall i :: 0 <= i < |sheets| && HasMarkFor(sheets[i], sid) ==> sheets[i] in r
  {
    Select(sheets, sh => HasMarkFor(sh, sid))
  }

  /** The `/my-status` count lies between the number of sheets on which the
      student's own mark is Present and the `/profile` count. */
  lemma AttendanceCountsOrdered(sheets: seq<AttendanceSheet>, sid: Id)
    ensures |Select(sheets, sh => PresentMarkFor(sh, sid))| <= MyStatusAttendance(sheets, sid)
    ensures MyStatusAttendance(sheets, sid) <= |ProfileAttendance(sheets, sid)|
  {
    var p := sh => HasMarkFor(sh, sid) && HasPresentMark(sh);
    var own := sh => PresentMarkFor(sh, sid);
    var any := sh => HasMarkFor(sh, sid);
    SelectSubset(sheets, own, p);
    SelectSubset(sheets, p, any);
  }

  /** A filter that implies another selects no more documents. */
  lemma {:induction false} SelectSubset(sheets: seq<AttendanceSheet>, p: AttendanceSheet -> bool, q: AttendanceSheet -> bool)
    requires forall sh :: p(sh) ==> q(sh)
    ensures |Select(sheets, p)| <= |Select(sheets, q)|
  {
    if sheets != [] {
      SelectSubset(sheets[1..], p, q);
    }
  }

  /** The two conditions need not hold of the same mark: a sheet on which the
      student is Absent and someone else is Present counts for `/my-status`. */
  lemma AbsentStudentCounted(sid: Id, other: Id, tuition: Id, day: Date)
    requires other != sid
    ensures var sh := AttendanceSheet(tuition, day, [AttendanceRecord(Some(sid), ABSENT), AttendanceRecord(Some(other), PRESENT)]);
      && !PresentMarkFor(sh, sid)
      && MyStatusAttendance([sh], sid) == 1
  {
    var sh := AttendanceSheet(tuition, day, [AttendanceRecord(Some(sid), ABSENT), AttendanceRecord(Some(other), PRESENT)]);
    assert sh.records[0].student == Some(sid);
    assert sh.records[1].status == PRESENT;
    assert Select([sh], sh' => HasMarkFor(sh', sid) && HasPresentMark(sh')) == [sh];
  }

  datatype StatusView = StatusView(
    profile: Student,
    tuitionName: string,
    attendanceCount: nat,
    totalDue: int,
    feesHistory: seq<FeeRecord>)

  /** `/my-status` for the login `caller` on the day `today`. The Student
      is found with `.populate('admin')`; populating a missing result does
      nothing, populating a found one throws under strict populate. */
  function MyStatus(db: Store, populate: PopulateMode, caller: Id, today: Date): (r: Reply<StatusView>)
    reads db
    ensures r.NotFound? <==> ProfileOf(db.students, caller).None?
    ensures r.Failed? <==> ProfileOf(db.students, caller).Some? && populate == StrictPopulate
    ensures r.Found? ==>
      && r.value.profile.user == caller
      && r.value.tuitionName == DEFAULT_ACADEMY
      && r.value.totalDue >= 0
      && r.value.attendanceCount == MyStatusAttendance(db.sheets, r.value.profile.id)
      && r.value.attendanceCount <= |ProfileAttendance(db.sheets, r.value.profile.id)|
    ensures r.Found? ==>
      var details := StudentFeeDetails(SubjectOf(r.value.profile), db.fees, today);
      && r.value.profile == ProfileOf(db.students, caller).value
      && r.value.totalDue == details.totalDue
      && r.value.feesHistory == details.paidHistory
  {
    match ProfileOf(db.students, caller)
    case None => NotFound
    case Some(profile) =>
      if populate == StrictPopulate then Failed else
      var details := StudentFeeDetails(SubjectOf(profile), db.fees, today);
      AttendanceCountsOrdered(db.sheets, profile.id);
      Found(StatusView(profile, DEFAULT_ACADEMY, MyStatusAttendance(db.sheets, profile.id),
                       details.totalDue, details.paidHistory))
  }

  datatype ProfileView = ProfileView(
    profile: Student,
    tuitionName: string,
    attendanceCount: nat,
    attendanceHistory: seq<AttendanceSheet>,
    feeDetails: FeeDetails)

  /** `/profile` for the login `caller` on the day `today`, with the same
      `.populate('admin')` as `/my-status`. */
  function Profile(db: Store, populate: PopulateMode, caller: Id, today: Date): (r: Reply<ProfileView>)
    reads db
    ensures r.NotFound? <==> ProfileOf(db.students, caller).None?
    ensures r.Failed? <==> ProfileOf(db.students, caller).Some? && populate == StrictPopulate
    ensures r.Found? ==>
      && r.value.profile.user == caller
      && r.value.attendanceCount == |r.value.attendanceHistory|
      && (forall i :: 0 <= i < |r.value.attendanceHistory| ==>
            HasMarkFor(r.value.attendanceHistory[i], r.value.profile.id))
      && (forall i :: 0 <= i < |db.sheets| && HasMarkFor(db.sheets[i], r.value.profile.id) ==>
            db.sheets[i] in r.value.attendanceHistory)
      && r.value.feeDetails.totalDue >= 0
    ensures r.Found? ==>
      && r.value.profile == ProfileOf(db.students, caller).value
      && r.value.tuitionName == DEFAULT_ACADEMY
      && r.value.attendanceHistory == ProfileAttendance(db.sheets, r.value.profile.id)
      && r.value.feeDetails == StudentFeeDetails(SubjectOf(r.value.profile), db.fees, today)
  {
    match ProfileOf(db.students, caller)
    case None => NotFound
    case Some(profile) =>
      if populate == StrictPopulate then Failed else
      var history := ProfileAttendance(db.sheets, profile.id);
      Found(ProfileView(profile, DEFAULT_ACADEMY, |history|, history,
                        StudentFeeDetails(SubjectOf(profile), db.fees, today)))
  }

  /** The notice query of the student `/notices`, keyed on `student.admin`,
      a path the Student schema does not have, so the key is undefined. */
  function StudentNoticeList(notices: seq<Notice>, mode: UndefinedFilter): (r: seq<Notice>)
    ensures |r| <= NOTICE_LIMIT
    ensures SortedDesc(r, NoticeDateKey)
    ensures forall i :: 0 <= i < |r| ==> r[i] in notices
  {
    var matching := Select(notices, (n: Notice) => MatchesId(n.tuitionId, None, mode));
    var sorted := SortDesc(matching, NoticeDateKey);
    var r := Limit(sorted, NOTICE_LIMIT);
    assert forall i :: 0 <= i < |r| ==> r[i] == sorted[i] && sorted[i] in multiset(matching);
    r
  }

  /** `/notices` of routes/student.js for the login `caller`. */
  function StudentNotices(db: Store, mode: UndefinedFilter, caller: Id): (r: Reply<seq<Notice>>)
    reads db
    ensures r.NotFound? <==> ProfileOf(db.students, caller).None?
    ensures r.Found? ==> r.value == StudentNoticeList(db.notices, mode)
  {
    match ProfileOf(db.students, caller)
    case None => NotFound
    case Some(_) => Found(StudentNoticeList(db.notices, mode))
  }

  /** Because the key is undefined, the list never depends on the student's
      own tuition: read as a match on null it is always empty, and with the
      condition dropped it is the ten latest notices of every tuition. */
  lemma StudentNoticesIgnoreTuition(notices: seq<Notice>)
    ensures StudentNoticeList(notices, CastToNull) == []
    ensures StudentNoticeList(notices, Dropped) == Limit(SortDesc(notices, NoticeDateKey), NOTICE_LIMIT)
  {
    SelectAgree(notices, (n: Notice) => MatchesId(n.tuitionId, None, Dropped), (n: Notice) => true);
    SelectAll(notices);
  }

  lemma {:induction false} SelectAll(notices: seq<Notice>)
    ensures Select(notices, (n: Notice) => true) == notices
  {
    if notices != [] {
      SelectAll(notices[1..]);
    }
  }
}
