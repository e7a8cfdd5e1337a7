/** The store behind the routes of routes/admin.js, and the store logic of
    its handlers: the dashboard figures of `/analytics`, the notice list of
    `/notices`, notice creation and deletion, `/add-student` with its
    compensating delete, and the attendance upsert of `/mark-attendance`.
    Every query is scoped by the caller's id, which is the tuition id. */
module AdminRoutes {
  import opened Common
  import opened Query
  import opened FeesModel
  import opened AttendanceModel
  import opened StudentModel
  import opened UserModel
  import opened NoticeModel
  import opened FeeCalc

  /** How the store reads a filter condition whose value is undefined in
      JavaScript: as a match on null, or as no condition at all. Which one
      applies depends on the driver's settings, so it is a parameter. */
  datatype UndefinedFilter = CastToNull | Dropped

  /** Does a required id path match the filter value `key`? A required path
      is never null, so an undefined key matches only when it is dropped. */
  predicate MatchesId(field: Id, key: Option<Id>, mode: UndefinedFilter)
  {
    match key
    case Some(k) => field == k
    case None => mode == Dropped
  }

  // ---------------------------------------------------------------
  // /analytics
  // ---------------------------------------------------------------

  const DEFAULT_TUITION_NAME := "EduSpark Academy"

  datatype AnalyticsView = AnalyticsView(
    totalStudents: nat,
    presentToday: nat,
    totalCollection: int,
    tuitionName: string)

  /** `Attendance.findOne({ date: today, tuitionId })`, then the number of
      its Present marks, or 0 without a sheet. */
  function PresentToday(sheets: seq<AttendanceSheet>, today: Date, tuition: Id): (n: nat)
    ensures (forall i :: 0 <= i < |sheets| ==> !SameDay(sheets[i], today, tuition)) ==> n == 0
  {
    match FindFirst(sheets, sh => SameDay(sh, today, tuition))
    case None => 0
    case Some(sh) => CountPresent(sh.records)
  }

  /** Under the (date, tuitionId) index the sheet found is the one sheet for
      the key, so the figure is exactly its count of Present marks, and no
      other tuition's sheet for the same day takes part. */
  lemma PresentTodayIsSheetCount(sheets: seq<AttendanceSheet>, today: Date, tuition: Id, i: nat)
    requires SheetsUnique(sheets)
    requires i < |sheets| && SameDay(sheets[i], today, tuition)
    ensures PresentToday(sheets, today, tuition) == CountPresent(sheets[i].records)
    ensures PresentToday(sheets, today, tuition) <= |sheets[i].records|
  {
    var found := FindFirst(sheets, sh => SameDay(sh, today, tuition));
    var k :| 0 <= k < |sheets| && sheets[k] == found.value;
    SameKeySameSheet(sheets, k, i);
  }

  /** The filter `{ month: currentMonth, status: 'Paid', tuitionId }`. */
  predicate CollectedInMonth(f: FeeRecord, monthLabel: string, tuition: Id)
  {
    f.month == monthLabel && f.status == Paid && f.tuitionId == tuition
  }

  /** The sum of the amounts of the fees the filter selects. */
  function TotalCollection(fees: seq<FeeRecord>, monthLabel: string, tuition: Id): int
  {
    SumAmounts(Select(fees, f => CollectedInMonth(f, monthLabel, tuition)))
  }

  /** One more fee adds its amount to the collection when it is Paid, in the
      month and in the tuition; any other fee (an Unpaid one, another month,
      another tuition) leaves the collection as it was. */
  lemma {:induction false} CollectionGrowsOnlyByMatchingFees(fees: seq<FeeRecord>, f: FeeRecord, monthLabel: string, tuition: Id)
    ensures CollectedInMonth(f, monthLabel, tuition) ==>
      TotalCollection(fees + [f], monthLabel, tuition) == TotalCollection(fees, monthLabel, tuition) + f.amount
    ensures !CollectedInMonth(f, monthLabel, tuition) ==>
      TotalCollection(fees + [f], monthLabel, tuition) == TotalCollection(fees, monthLabel, tuition)
  {
    var p := g => CollectedInMonth(g, monthLabel, tuition);
    SelectAppend(fees, [f], p);
    SumAppend(Select(fees, p), Select([f], p));
    assert Select([f], p) == if p(f) then [f] else [];
  }

  /** `adminProfile?.tuitionName || "EduSpark Academy"`. */
  function TuitionNameOf(users: map<Id, User>, caller: Id): (name: string)
    ensures name != ""
    ensures caller in users && Filled(users[caller].tuitionName) ==> name == users[caller].tuitionName.value
    ensures caller !in users || !Filled(users[caller].tuitionName) ==> name == DEFAULT_TUITION_NAME
  {
    if caller in users && Filled(users[caller].tuitionName) then users[caller].tuitionName.value
    else DEFAULT_TUITION_NAME
  }

  // ---------------------------------------------------------------
  // /notices and /notice/:id
  // ---------------------------------------------------------------

  /** `req.user.role === 'ADMIN' ? req.user._id : req.user.tuitionId`. */
  function NoticeOwner(caller: User): (key: Option<Id>)
    ensures caller.role == ADMIN ==> key == Some(caller.id)
    ensures caller.role == STUDENT ==> key == caller.tuitionId
  {
    if caller.role == ADMIN then Some(caller.id) else caller.tuitionId
  }

  function NoticeById(notices: seq<Notice>, id: Id): Option<Notice>
  {
    FindFirst(notices, (n: Notice) => n.id == id)
  }

  /** `findByIdAndDelete(id)`: the notices whose id is not `id`. */
  function WithoutNotice(notices: seq<Notice>, id: Id): (r: seq<Notice>)
    ensures forall i :: 0 <= i < |r| ==> r[i].id != id && r[i] in notices
    ensures forall i :: 0 <= i < |notices| && notices[i].id != id ==> notices[i] in r
  {
    Select(notices, (n: Notice) => n.id != id)
  }

  /** Deleting removes exactly the one notice with that id: every other
      notice stays, and the list is one shorter. */
  lemma {:induction false} WithoutNoticeRemovesOne(notices: seq<Notice>, id: Id)
    requires NoticeIdsUnique(notices)
    requires NoticeById(notices, id).Some?
    ensures |WithoutNotice(notices, id)| == |notices| - 1
    ensures forall n :: n in WithoutNotice(notices, id) <==> n in notices && n.id != id
  {
    NoticeIdsUniqueTail(notices);
    if notices[0].id == id {
      WithoutNoticeKeepsAll(notices[1..], id);
    } else {
      WithoutNoticeRemovesOne(notices[1..], id);
    }
  }

  lemma {:induction false} WithoutNoticeKeepsAll(notices: seq<Notice>, id: Id)
    requires forall i :: 0 <= i < |notices| ==> notices[i].id != id
    ensures WithoutNotice(notices, id) == notices
  {
    if notices != [] {
      WithoutNoticeKeepsAll(notices[1..], id);
    }
  }

  lemma NoticeIdsUniqueTail(notices: seq<Notice>)
    requires NoticeIdsUnique(notices) && notices != []
    ensures NoticeIdsUnique(notices[1..])
    ensures forall j :: 0 <= j < |notices[1..]| ==> notices[1..][j].id != notices[0].id
  {
    var tail := notices[1..];
    forall i, j | 0 <= i < j < |tail| ensures tail[i].id != tail[j].id {
      assert tail[i] == notices[i + 1] && tail[j] == notices[j + 1];
    }
    forall j | 0 <= j < |tail| ensures tail[j].id != notices[0].id {
      assert tail[j] == notices[j + 1];
    }
  }

  /** Filtering keeps notice ids unique. */
  lemma {:induction false} SelectKeepsNoticeIds(notices: seq<Notice>, p: Notice -> bool)
    requires NoticeIdsUnique(notices)
    ensures NoticeIdsUnique(Select(notices, p))
  {
    if notices != [] {
      var tail := notices[1..];
      NoticeIdsUniqueTail(notices);
      SelectKeepsNoticeIds(tail, p);
      if p(notices[0]) {
        var r := Select(tail, p);
        forall j | 0 <= j < |r| ensures r[j].id != notices[0].id {
          var k :| 0 <= k < |tail| && tail[k] == r[j];
        }
        ConsKeepsNoticeIds(notices[0], r);
      }
    }
  }

  /** A notice whose id no notice of a list has can go in front of it. */
  lemma ConsKeepsNoticeIds(x: Notice, r: seq<Notice>)
    requires NoticeIdsUnique(r)
    requires forall j :: 0 <= j < |r| ==> r[j].id != x.id
    ensures NoticeIdsUnique([x] + r)
  {
    var q := [x] + r;
    forall i, j | 0 <= i < j < |q| ensures q[i].id != q[j].id {
      assert q[j] == r[j - 1];
      if i > 0 {
        assert q[i] == r[i - 1];
      }
    }
  }

  // ---------------------------------------------------------------
  // /mark-attendance
  // ---------------------------------------------------------------

  /** `findOneAndUpdate({ date, tuitionId }, { records, tuitionId }, { upsert: true })`:
      the sheet for the key gets the new records, or a new sheet is added. */
  function UpsertSheet(sheets: seq<AttendanceSheet>, date: Date, tuition: Id, records: seq<AttendanceRecord>): seq<AttendanceSheet>
  {
    var sheet := AttendanceSheet(tuition, date, records);
    match FindIndex(sheets, sh => SameDay(sh, date, tuition))
    case Some(i) => sheets[i := sheet]
    case None => sheets + [sheet]
  }

  /** The sheets of every key other than (date, tuition), in order. */
  function OtherSheets(sheets: seq<AttendanceSheet>, date: Date, tuition: Id): seq<AttendanceSheet>
  {
    Select(sheets, sh => !SameDay(sh, date, tuition))
  }

  /** After the upsert the key has exactly one sheet, holding exactly the
      submitted records (whatever the sheet held before), and the sheets of
      every other key are the same, in the same order. */
  lemma UpsertSheetSpec(sheets: seq<AttendanceSheet>, date: Date, tuition: Id, records: seq<AttendanceRecord>)
    requires SheetsUnique(sheets)
    ensures SheetsUnique(UpsertSheet(sheets, date, tuition, records))
    ensures AttendanceSheet(tuition, date, records) in UpsertSheet(sheets, date, tuition, records)
    ensures forall i, j ::
              (0 <= i < |UpsertSheet(sheets, date, tuition, records)|
               && 0 <= j < |UpsertSheet(sheets, date, tuition, records)|
               && SameDay(UpsertSheet(sheets, date, tuition, records)[i], date, tuition)
               && SameDay(UpsertSheet(sheets, date, tuition, records)[j], date, tuition)) ==> i == j
    ensures OtherSheets(UpsertSheet(sheets, date, tuition, records), date, tuition)
         == OtherSheets(sheets, date, tuition)
  {
    var sheet := AttendanceSheet(tuition, date, records);
    match FindIndex(sheets, sh => SameDay(sh, date, tuition))
    case Some(i) =>
      ReplaceKeepsUnique(sheets, i, sheet);
      ReplaceKeepsOthers(sheets, i, sheet);
      assert UpsertSheet(sheets, date, tuition, records)[i] == sheet;
      KeyHeldOnce(UpsertSheet(sheets, date, tuition, records), date, tuition);
    case None =>
      AppendKeepsUnique(sheets, sheet);
      SelectAppend(sheets, [sheet], sh => !SameDay(sh, date, tuition));
      assert Select([sheet], sh => !SameDay(sh, date, tuition)) == [];
      KeyHeldOnce(UpsertSheet(sheets, date, tuition, records), date, tuition);
  }

  /** Under the index a key is held by at most one position. */
  lemma KeyHeldOnce(sheets: seq<AttendanceSheet>, date: Date, tuition: Id)
    requires SheetsUnique(sheets)
    ensures forall i, j ::
              (0 <= i < |sheets| && 0 <= j < |sheets|
               && SameDay(sheets[i], date, tuition) && SameDay(sheets[j], date, tuition)) ==> i == j
  {
    forall i, j | 0 <= i < |sheets| && 0 <= j < |sheets| && SameDay(sheets[i], date, tuition) && SameDay(sheets[j], date, tuition)
      ensures i == j
    {
      SameKeySameSheet(sheets, i, j);
    }
  }

  /** Replacing a sheet by one with the same key keeps the index unique. */
  lemma ReplaceKeepsUnique(sheets: seq<AttendanceSheet>, i: nat, sheet: AttendanceSheet)
    requires SheetsUnique(sheets) && i < |sheets|
    requires SameDay(sheet, sheets[i].date, sheets[i].tuitionId)
    ensures SheetsUnique(sheets[i := sheet])
  {
    var r := sheets[i := sheet];
    forall a, b | 0 <= a < b < |r| ensures !SameDay(r[b], r[a].date, r[a].tuitionId) {
      if a == i {
        assert !SameDay(sheets[b], sheets[i].date, sheets[i].tuitionId);
      } else if b == i {
        assert !SameDay(sheets[i], sheets[a].date, sheets[a].tuitionId);
      } else {
        assert r[a] == sheets[a] && r[b] == sheets[b];
      }
    }
  }

  /** Replacing a sheet by one with the same key leaves the other keys' sheets. */
  lemma ReplaceKeepsOthers(sheets: seq<AttendanceSheet>, i: nat, sheet: AttendanceSheet)
    requires i < |sheets|
    requires SameDay(sheet, sheets[i].date, sheets[i].tuitionId)
    ensures OtherSheets(sheets[i := sheet], sheet.date, sheet.tuitionId) == OtherSheets(sheets, sheet.date, sheet.tuitionId)
  {
    var other := sh => !SameDay(sh, sheet.date, sheet.tuitionId);
    assert sheets[i := sheet] == sheets[..i] + [sheet] + sheets[i + 1..];
    assert sheets == sheets[..i] + [sheets[i]] + sheets[i + 1..];
    SelectAppend(sheets[..i] + [sheet], sheets[i + 1..], other);
    SelectAppend(sheets[..i], [sheet], other);
    SelectAppend(sheets[..i] + [sheets[i]], sheets[i + 1..], other);
    SelectAppend(sheets[..i], [sheets[i]], other);
    assert Select([sheet], other) == [] == Select([sheets[i]], other);
  }

  /** Adding a sheet whose key no sheet holds keeps the index unique. */
  lemma AppendKeepsUnique(sheets: seq<AttendanceSheet>, sheet: AttendanceSheet)
    requires SheetsUnique(sheets)
    requires forall i :: 0 <= i < |sheets| ==> !SameDay(sheets[i], sheet.date, sheet.tuitionId)
    ensures SheetsUnique(sheets + [sheet])
  {
    var r := sheets + [sheet];
    forall a, b | 0 <= a < b < |r| ensures !SameDay(r[b], r[a].date, r[a].tuitionId) {
      if b == |sheets| {
        assert !SameDay(sheets[a], sheet.date, sheet.tuitionId);
      } else {
        assert r[a] == sheets[a] && r[b] == sheets[b];
      }
    }
  }

  // ---------------------------------------------------------------
  // /add-student
  // ---------------------------------------------------------------

  /** The request of `/add-student`: the body fields (undefined when not
      sent), the bcrypt hash of the password (None when there is no password,
      on which bcrypt throws) and the name of the uploaded photo file. */
  datatype StudentForm = StudentForm(
    email: Option<string>,
    passwordHash: Option<string>,
    name: Option<string>,
    fatherName: Option<string>,
    collegeName: Option<string>,
    studentClass: Option<string>,
    parentPhone: Option<string>,
    batch: Option<string>,
    feesPerMonth: Option<int>,
    upload: Option<string>)

  /** `User.findOne({ email })` finds a user. */
  predicate EmailRegistered(users: map<Id, User>, email: Option<string>, mode: UndefinedFilter)
  {
    match email
    case Some(e) => EmailTaken(users, e)
    case None => mode == Dropped && users != map[]
  }

  /** The login the route creates: a STUDENT of the caller's tuition. */
  function NewUserInput(form: StudentForm, caller: Id): UserInput
  {
    UserInput(form.email, form.passwordHash, Some("STUDENT"), None, Some(caller))
  }

  /** `req.file ? '/uploads/' + filename : ''`. */
  function PhotoPath(upload: Option<string>): string
  {
    match upload case None => "" case Some(f) => "/uploads/" + f
  }

  /** The student the route creates; it passes no joining date. */
  function NewStudentInput(form: StudentForm, user: Id, caller: Id): StudentInput
  {
    StudentInput(Some(user), Some(caller), form.name, form.fatherName, form.studentClass,
                 form.collegeName, form.parentPhone, form.batch, form.feesPerMonth,
                 Some(PhotoPath(form.upload)), None)
  }

  /** A login created by `/add-student` lists its own tuition's notices, and
      its student record starts paying on the day it was created. */
  lemma NewStudentBelongsToCaller(form: StudentForm, caller: Id, uid: Id, sid: Id, now: Date)
    requires CreateUser(NewUserInput(form, caller), uid).Ok?
    requires CreateStudent(NewStudentInput(form, uid, caller), sid, now).Ok?
    ensures CreateUser(NewUserInput(form, caller), uid).value.role == STUDENT
    ensures NoticeOwner(CreateUser(NewUserInput(form, caller), uid).value) == Some(caller)
    ensures CreateStudent(NewStudentInput(form, uid, caller), sid, now).value.tuitionId == caller
    ensures CreateStudent(NewStudentInput(form, uid, caller), sid, now).value.joiningDate == now
  {
  }

  /** Without an upload the route stores the empty photo path, so the
      schema's placeholder photo is never used by this route. */
  lemma NoUploadStoresEmptyPhoto(form: StudentForm, uid: Id, caller: Id, sid: Id, now: Date)
    requires form.upload.None?
    requires CreateStudent(NewStudentInput(form, uid, caller), sid, now).Ok?
    ensures CreateStudent(NewStudentInput(form, uid, caller), sid, now).value.photo == ""
  {
  }

  // ---------------------------------------------------------------
  // The store
  // ---------------------------------------------------------------

  /** Every stored user is valid and keyed by its own id, which lies below
      `bound`, the next fresh id; no two users share an email. */
  ghost predicate UsersValid(users: map<Id, User>, bound: nat)
  {
    && (forall k :: k in users ==> users[k].id == k && k < bound && ValidUser(users[k]))
    && EmailsUnique(users)
  }

  /** Every stored student is valid and has an id below `bound`. */
  ghost predicate StudentsValid(students: seq<Student>, bound: nat)
  {
    forall i :: 0 <= i < |students| ==> students[i].id < bound && ValidStudent(students[i])
  }

  /** Adding a valid user under the fresh id, with an email not taken,
      keeps the users valid once the fresh id is used up. */
  lemma AddUserValid(users: map<Id, User>, bound: nat, u: User)
    requires UsersValid(users, bound)
    requires u.id == bound && ValidUser(u) && !EmailTaken(users, u.email)
    ensures UsersValid(users[bound := u], bound + 2)
  {
    AddUserKeepsEmailsUnique(users, bound, u);
  }

  /** Appending a valid student whose id lies below the new bound keeps the
      students valid. */
  lemma AddStudentValid(students: seq<Student>, bound: nat, bound': nat, st: Student)
    requires StudentsValid(students, bound) && bound <= bound'
    requires st.id < bound' && ValidStudent(st)
    ensures StudentsValid(students + [st], bound')
  {
  }

  class Store {
    var users: map<Id, User>
    var students: seq<Student>
    var fees: seq<FeeRecord>
    var sheets: seq<AttendanceSheet>
    var notices: seq<Notice>
    /** The next fresh ObjectId. */
    var nextId: nat

    /** The schema invariants of every collection. */
    ghost predicate Valid()
      reads this
    {
      && UsersValid(users, nextId)
      && StudentsValid(students, nextId)
      && (forall i :: 0 <= i < |fees| ==> fees[i].id < nextId)
      && FeesUnique(fees)
      && SheetsUnique(sheets)
      && (forall i :: 0 <= i < |notices| ==> notices[i].id < nextId)
      && NoticeIdsUnique(notices)
    }

    constructor ()
      ensures Valid()
      ensures users == map[] && students == [] && fees == [] && sheets == [] && notices == []
    {
      users, students, fees, sheets, notices := map[], [], [], [], [];
      nextId := 0;
    }

    /** The figures of `/analytics` for the admin `caller` on the day
        `today`, whose month label is `monthLabel`. */
    function Analytics(caller: Id, today: Date, monthLabel: string): (a: AnalyticsView)
      reads this
      ensures a.totalStudents <= |students|
      ensures a.tuitionName != ""
      ensures (forall i :: 0 <= i < |sheets| ==> !SameDay(sheets[i], today, caller)) ==> a.presentToday == 0
      ensures a.presentToday == PresentToday(sheets, today, caller)
      ensures a.totalCollection == TotalCollection(fees, monthLabel, caller)
      ensures a.tuitionName == TuitionNameOf(users, caller)
    {
      AnalyticsView(
        |Select(students, (s: Student) => s.tuitionId == caller)|,
        PresentToday(sheets, today, caller),
        TotalCollection(fees, monthLabel, caller),
        TuitionNameOf(users, caller))
    }

    /** The list of `/notices`: the notices of the caller's tuition, sorted on
        a path notices do not have, which leaves the store's order. */
    function AdminNotices(mode: UndefinedFilter, caller: User): (r: seq<Notice>)
      reads this
      ensures r == Select(notices, (n: Notice) => MatchesId(n.tuitionId, NoticeOwner(caller), mode))
      ensures caller.role == ADMIN ==>
        forall n :: n in r <==> n in notices && n.tuitionId == caller.id
    {
      var mine := Select(notices, (n: Notice) => MatchesId(n.tuitionId, NoticeOwner(caller), mode));
      SortOnMissingKey(mine, MissingCreatedAt);
      SortDesc(mine, MissingCreatedAt)
    }

    /** `/add-notice`: a notice of the caller's tuition, dated `now`. */
    method AddNotice(caller: Id, title: Option<string>, content: Option<string>, now: Date) returns (code: int)
      requires Valid()
      modifies this`notices, this`nextId
      ensures Valid()
      ensures code == 201 <==> Filled(title) && Filled(content)
      ensures code == 201 ==> notices == old(notices) + [Notice(old(nextId), caller, title.value, content.value, now)]
      ensures code != 201 ==> code == 500 && notices == old(notices) && nextId == old(nextId)
    {
      var created := CreateNotice(NoticeInput(Some(caller), title, content, None), nextId, now);
      if created.Err? {
        return 500;
      }
      assert forall i :: 0 <= i < |notices| ==> notices[i].id != nextId;
      notices := notices + [created.value];
      nextId := nextId + 1;
      code := 201;
    }

    /** `/notice/:id` (DELETE): 404 for an unknown id, 401 for a notice of
        another tuition, otherwise the notice is deleted. */
    method DeleteNotice(caller: Id, id: Id) returns (code: int)
      requires Valid()
      modifies this`notices
      ensures Valid()
      ensures NoticeById(old(notices), id).None? ==> code == 404 && notices == old(notices)
      ensures NoticeById(old(notices), id).Some? && NoticeById(old(notices), id).value.tuitionId != caller ==>
        code == 401 && notices == old(notices)
      ensures NoticeById(old(notices), id).Some? && NoticeById(old(notices), id).value.tuitionId == caller ==>
        code == 200 && notices == WithoutNotice(old(notices), id)
    {
      var found := NoticeById(notices, id);
      if found.None? {
        return 404;
      }
      if found.value.tuitionId != caller {
        return 401;
      }
      SelectKeepsNoticeIds(notices, (n: Notice) => n.id != id);
      notices := WithoutNotice(notices, id);
      code := 200;
    }

    /** `/mark-attendance`: an invalid date fails the cast; otherwise the
        sheet for (date, caller) is upserted with the submitted records. */
    method MarkAttendance(caller: Id, date: Option<Date>, records: seq<RecordInput>) returns (code: int)
      requires Valid()
      modifies this`sheets
      ensures Valid()
      ensures date.None? ==> code == 500 && sheets == old(sheets)
      ensures date.Some? ==> code == 200 && sheets == UpsertSheet(old(sheets), date.value, caller, CastRecords(records))
    {
      if date.None? {
        return 500;
      }
      UpsertSheetSpec(sheets, date.value, caller, CastRecords(records));
      sheets := UpsertSheet(sheets, date.value, caller, CastRecords(records));
      code := 200;
    }

    /** `/add-student`: refuse a registered email; create the login, then the
        student; if creating the student fails, delete the login again. */
    method AddStudent(mode: UndefinedFilter, caller: Id, form: StudentForm, now: Date) returns (code: int)
      requires Valid()
      modifies this`users, this`students, this`nextId
      ensures Valid()
      ensures code == 400 <==> EmailRegistered(old(users), form.email, mode)
      ensures code == 201 <==>
        && !EmailRegistered(old(users), form.email, mode)
        && AcceptsUser(NewUserInput(form, caller))
        && AcceptsStudent(NewStudentInput(form, old(nextId), caller))
      ensures code == 201 ==>
        && users == old(users)[old(nextId) := CreateUser(NewUserInput(form, caller), old(nextId)).value]
        && students == old(students) + [CreateStudent(NewStudentInput(form, old(nextId), caller), old(nextId) + 1, now).value]
      ensures code == 201 ==> nextId == old(nextId) + 2
      ensures code != 201 ==>
        (code == 400 || code == 500) && users == old(users) && students == old(students) && nextId == old(nextId)
    {
      if EmailRegistered(users, form.email, mode) {
        return 400;
      }
      if form.passwordHash.None? {
        // bcrypt throws before any document is created
        return 500;
      }
      var uid, sid := nextId, nextId + 1;
      var newUser := CreateUser(NewUserInput(form, caller), uid);
      if newUser.Err? {
        return 500;
      }
      users := users[uid := newUser.value];
      var newStudent := CreateStudent(NewStudentInput(form, uid, caller), sid, now);
      if newStudent.Err? {
        // the compensating findByIdAndDelete of the login just created
        users := users - {uid};
        assert users == old(users);
        return 500;
      }
      AddUserValid(old(users), uid, newUser.value);
      AddStudentValid(students, uid, uid + 2, newStudent.value);
      students := students + [newStudent.value];
      nextId := nextId + 2;
      code := 201;
    }

    /** `Fee.create` under the unique index on (student, month, tuitionId):
        a document the schema refuses, or one whose key is taken, is not
        stored. */
    method InsertFee(input: FeeInput, now: Date) returns (r: Result<FeeRecord>)
      requires Valid()
      modifies this`fees, this`nextId
      ensures Valid()
      ensures !AcceptsFee(input) ==> r.Err? && r.failure.Invalid? && fees == old(fees) && nextId == old(nextId)
      ensures AcceptsFee(input) && KeyTaken(old(fees), CreateFee(input, old(nextId), now).value) ==>
        r == Err(DuplicateKey) && fees == old(fees) && nextId == old(nextId)
      ensures r.Ok? <==> AcceptsFee(input) && !KeyTaken(old(fees), CreateFee(input, old(nextId), now).value)
      ensures r.Ok? ==> r.value == CreateFee(input, old(nextId), now).value && fees == old(fees) + [r.value]
    {
      r := CreateFee(input, nextId, now);
      if r.Err? {
        return;
      }
      if KeyTaken(fees, r.value) {
        return Err(DuplicateKey);
      }
      AppendFeeUnique(fees, r.value);
      fees := fees + [r.value];
      nextId := nextId + 1;
    }
  }
}
