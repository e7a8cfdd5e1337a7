# Tuition-centre backend: fee calculator, tenant-scoped store and schemas in Dafny

This project models the core of a small Express + Mongoose backend for tuition
centres. Each tuition centre is an ADMIN login; its id is the `tuitionId` that
scopes every document of that centre. The model covers these parts:

- **The fee-liability calculator `calculateFeeDetails`**, in both of its copies
  (`FeeCalc`). Each copy counts the months since a start date, including the
  current month. It multiplies that count by the monthly fee and subtracts the
  amounts of the student's Paid fee records. The result is clamped at zero.
  - The copy in routes/admin.js starts from `createdAt`. It counts at least one
    month and sums only records of the student's own tuition.
  - The copy in routes/student.js starts from `joiningDate`. It counts zero months
    for a future start, reads a missing rate as 0, and sums Paid records of the
    student id in every tuition.
  - No admin route calls the admin copy. It is modelled because it is part of
    the file.
- **The store behind the admin routes** (`AdminRoutes.Store`). A class holds the
  users as a map and the students, fees, attendance sheets and notices as
  sequences in insertion order. Each Mongo query is a filter, a lookup, a sort
  or a fold over those fields (`Query`). The state-changing handlers are
  methods:
  - notice creation and deletion with its 404/401/200 outcomes;
  - the attendance upsert keyed by (date, tuitionId);
  - `/add-student`, which creates a User and then a Student, and deletes the
    User again when the Student is refused;
  - the insert under the fee index.

  `Store.Valid` holds the schema invariants: the unique indexes on User email,
  on Fee (student, month, tuitionId) and on Attendance (date, tuitionId), plus
  the required fields of users and students. Every method keeps these
  invariants.
- **The read-only student routes** `/my-status`, `/notices` and `/profile`
  (`StudentRoutes`). Each answers 404 without computing anything when the
  caller has no Student. `/my-status` and `/profile` load the Student with
  `.populate('admin')`, a path the Student schema does not declare. Whether
  that throws depends on the Mongoose version, so it is the parameter
  `StudentRoutes.PopulateMode`. Under strict populate (the default from
  Mongoose 6 on) both routes answer 500 for every caller who has a Student.
  Otherwise `admin` stays undefined and the tuition name is always "Academy".
- **The five Mongoose schemas**: Fees, Attendance, Student, User and Notice.
  Each has a datatype of stored documents and a `Create…` function that
  applies its validators and defaults to an input whose fields may be
  undefined.
- **Two client-side string helpers**: `getStudentPhoto` (`UrlHelper`) and the
  phone filter and two URL templates of `sendWhatsAppMessage`
  (`WhatsappHelper`).

Several behaviours of the code as written are stated as lemmas:
- The two calculator copies pick different start dates and clamp the month
  count differently (`StartDatePriority`, `MonthClampsDiffer`).
- The student copy counts a Paid record filed under another tuition
  (`StudentCountsOtherTuition`).
- `/my-status` matches "names the student" and "some mark is Present" on
  possibly different marks (`AbsentStudentCounted`).
- The admin `/notices` sorts on `createdAt`, a path notices do not have, so it
  keeps the store's order (`Store.AdminNotices`).
- The student `/notices` filters on `student.admin`, which the Student schema
  lacks, so its result never depends on the student's own tuition
  (`StudentNoticesIgnoreTuition`).
- `/add-student` stores the empty photo path "" when no file is uploaded. The
  schema's placeholder is therefore never used, and the app then shows the
  avatar URL (`NoUploadStoresEmptyPhoto`, `UrlHelper.AvatarOnlyWithoutPath`).
- `/mark-attendance` writes through `findOneAndUpdate`, which runs no
  validators. A submitted mark gets the default status Present but is not
  checked against the enum or for a student (`CastRecord`, `CastSkipsEnum`),
  so stored marks keep `Option<Id>` students and string statuses.

How JavaScript and Mongoose values are represented:
- An undefined field is `Option.None`.
- A required String refuses both undefined and "" (`Common.Filled`).
- Defaults apply only to undefined values.
- `Number(undefined)` is NaN, which Mongoose's number cast refuses, so a
  missing fee rate makes Student creation fail.
- A missing start date makes the month count NaN. The calculator then reports
  `monthsCount == None` and a due amount of 0, because `NaN > 0` is false.
- How the store treats a filter whose value is undefined depends on the driver
  settings. It is the parameter `AdminRoutes.UndefinedFilter`: either a match
  on null or no condition at all.

## Model

| member | source | states |
|---|---|---|
| Query.Select | routes/admin.js:96 | `find(filter)` returns exactly the stored documents that match the filter, each taken from the collection, and never more than the collection holds |
| Query.FindFirst | routes/student.js:81 | `findOne` finds nothing exactly when no document matches; otherwise it returns a stored document that matches |
| Query.SortDesc | routes/student.js:88 | `sort({ date: -1 })` returns a permutation of its input (same multiset, same length) with the latest key first and missing keys last |
| Query.SortOnMissingKey | routes/admin.js:96 | sorting on a path that no document has leaves the documents in natural order |
| Query.Limit | routes/student.js:88 | `limit(n)` returns a prefix of the list: the first n documents when there are more than n, and the whole list otherwise |
| FeesModel.StatusOf | models/Fees.js:22-26 | the fee status is Paid exactly for "Paid" and Unpaid exactly for "Unpaid" or a missing value; any other string is refused |
| FeesModel.CreateFee | models/Fees.js:3-30 | a fee is stored iff tuitionId, student, a non-empty month and amount are given and the status is in the enum; the fields are kept, status defaults to Unpaid, paymentDate stays optional, createdAt is the creation instant |
| FeesModel.AppendFeeUnique | models/Fees.js:33 | appending a fee keeps the (student, month, tuitionId) index unique if and only if the key is not taken yet |
| AttendanceModel.CastRecord | models/Attendance.js:14-27 | a submitted mark keeps its student and status, and a missing status becomes Present |
| AttendanceModel.CastRecords | routes/admin.js:151-154 | every submitted mark is cast, in order, and none is added or dropped |
| AttendanceModel.CreateRecord | models/Attendance.js:16-25 | a validated mark is accepted iff it names a student and its status is Present or Absent |
| AttendanceModel.CastSkipsEnum | routes/admin.js:152-156 | a status such as "Late" is refused by validation but stored by the unvalidated upsert cast |
| AttendanceModel.SameKeySameSheet | models/Attendance.js:31 | under the (date, tuitionId) index, two sheets with the same key are the same sheet |
| AttendanceModel.TenantsShareDay | models/Attendance.js:30-31 | two different tuitions may each hold a sheet for the same date |
| AttendanceModel.CountPresent | routes/admin.js:70 | the Present count is at most the number of marks; it is 0 iff no mark is Present and equals the number of marks iff every mark is Present |
| AttendanceModel.CountPresentAppend | routes/admin.js:70 | the Present count of two joined mark lists is the sum of their counts |
| StudentModel.CreateStudent | models/Student.js:3-59 | a student is stored iff user, tuitionId, the five required strings and feesPerMonth are given; the fields are kept; collegeName defaults to "N/A", photo to the placeholder URL and joiningDate to the creation instant |
| StudentModel.EmptyPhotoKept | models/Student.js:47-50 | an empty photo string is stored as "", not replaced by the placeholder |
| UserModel.RoleOf | models/User.js:13-17 | the role is ADMIN exactly for "ADMIN" and STUDENT exactly for "STUDENT" or a missing value; any other string is refused |
| UserModel.CreateUser | models/User.js:3-29 | a user is stored iff email and password are non-empty, the role is in the enum, and a tuitionName is present when the role is ADMIN; tuitionId stays optional |
| UserModel.TuitionNameOnlyForAdmin | models/User.js:20-23 | an ADMIN without tuitionName is refused while the same STUDENT is accepted, and no role means STUDENT |
| UserModel.AddUserKeepsEmailsUnique | models/User.js:4-8 | adding a user whose email is not taken keeps emails unique |
| NoticeModel.CreateNotice | models/Notice.js:3-22 | a notice is stored iff tuitionId, a non-empty title and a non-empty content are given; its date defaults to the creation instant |
| FeeCalc.Clamp | routes/admin.js:52 | the reported due amount is max(x, 0) |
| FeeCalc.SumPermutation | routes/admin.js:46-48 | the order of the paid records does not change their sum |
| FeeCalc.AdminStart | routes/admin.js:35 | the admin copy starts from createdAt when it is set, and from joiningDate only otherwise |
| FeeCalc.AdminMonthsCount | routes/admin.js:38-39 | the admin month count is max(raw, 0) + 1, so a start in the current or a future month gives exactly 1 |
| FeeCalc.AdminPaidHistory | routes/admin.js:42-46 | the admin paid history holds exactly the student's Paid records of the same tuition, latest paymentDate first |
| FeeCalc.AdminFeeDetails | routes/admin.js:34-56 | totalDue = max(months × feesPerMonth − sum of the matching Paid amounts, 0), never negative; months ≥ 1; a NaN month count or rate gives 0 |
| FeeCalc.StudentStart | routes/student.js:14 | the student copy starts from joiningDate when it is set, and from createdAt only otherwise |
| FeeCalc.StudentMonthsCount | routes/student.js:17-18 | the student month count is 0 iff raw < 0 and raw + 1 otherwise, so it is never negative |
| FeeCalc.RateOrZero | routes/student.js:20 | a missing monthly rate counts as 0 |
| FeeCalc.StudentPaidHistory | routes/student.js:22-25 | the student paid history holds exactly the student's Paid records of any tuition, latest createdAt first |
| FeeCalc.StudentFeeDetails | routes/student.js:13-35 | totalDue = max(months × (feesPerMonth or 0) − sum of the Paid amounts, 0), never negative; months ≥ 0 |
| FeeCalc.CurrentMonthCountsOne | routes/admin.js:38-39 | a start date in the current month counts exactly one month in both copies (also routes/student.js:17-18) |
| FeeCalc.MonthClampsDiffer | routes/student.js:18 | the copies agree on a raw count ≥ 0; for a future start the admin copy counts 1 month and the student copy 0 |
| FeeCalc.StartDatePriority | routes/admin.js:35 | with both dates set, the admin result ignores joiningDate and the student result ignores createdAt |
| FeeCalc.AdminIgnoresOtherRecords | routes/admin.js:42-46 | a record of another student, an Unpaid record, or one of another tuition leaves the admin result unchanged |
| FeeCalc.StudentCountsOtherTuition | routes/student.js:22-25 | a Paid record of the same student id under another tuition is outside the admin filter (so the admin result is unchanged, by AdminIgnoresOtherRecords), yet the student copy counts it: its due amount becomes max(months × rate − (paid + amount), 0) |
| FeeCalc.PaymentNeverRaisesDue | routes/admin.js:48-52 | one more non-negative Paid record of the student's own tuition never raises the admin due amount |
| AdminRoutes.PresentToday | routes/admin.js:67-70 | without a sheet for (today, caller) the present count is 0 |
| AdminRoutes.PresentTodayIsSheetCount | routes/admin.js:68-70 | under the index, the present count is the Present count of the caller's one sheet for today, whatever other tuitions hold |
| AdminRoutes.CollectionGrowsOnlyByMatchingFees | routes/admin.js:71-73 | one more fee adds its amount to the collection exactly when it is Paid, in the current month and in the caller's tuition; any other fee changes nothing |
| AdminRoutes.TuitionNameOf | routes/admin.js:77 | the dashboard shows the admin's tuitionName when it is set and non-empty, and "EduSpark Academy" otherwise |
| AdminRoutes.NoticeOwner | routes/admin.js:95 | notices are looked up under the caller's own id for ADMIN and under the caller's tuitionId for STUDENT |
| AdminRoutes.WithoutNotice | routes/admin.js:108 | the list after `findByIdAndDelete` keeps exactly the stored notices whose id differs from the deleted one |
| AdminRoutes.WithoutNoticeRemovesOne | routes/admin.js:108 | deleting an existing id removes exactly that one notice: the list is one shorter and every other notice stays |
| AdminRoutes.UpsertSheetSpec | routes/admin.js:152-156 | after the upsert the (date, caller) key has exactly one sheet, holding exactly the submitted marks; the sheets of every other key are unchanged and in order; the index stays unique |
| AdminRoutes.NewStudentBelongsToCaller | routes/admin.js:123-126 | the login created is a STUDENT whose notices are the caller's, and the student record belongs to the caller and starts paying on its creation day |
| AdminRoutes.NoUploadStoresEmptyPhoto | routes/admin.js:126 | without an upload the stored photo is "" |
| AdminRoutes.Store.Analytics | routes/admin.js:61-80 | the dashboard counts at most the stored students; the Present figure is `PresentToday` (0 without a sheet for today, the sheet's Present count under the index by `PresentTodayIsSheetCount`); the collection sums the matching Paid fees; the name is `TuitionNameOf` the caller, never empty |
| AdminRoutes.Store.AdminNotices | routes/admin.js:93-99 | `/notices` returns the notices whose tuitionId matches the role-selected owner, in store order; for an ADMIN these are exactly the caller's own notices |
| AdminRoutes.Store.AddNotice | routes/admin.js:85-91 | a notice with title and content is appended under the caller's tuition with a fresh id and today's date (201); otherwise the notices and the id counter are unchanged (500) |
| AdminRoutes.Store.DeleteNotice | routes/admin.js:101-111 | an unknown id gives 404 and a notice of another tuition gives 401, both with nothing changed; otherwise exactly that notice is deleted (200) |
| AdminRoutes.Store.MarkAttendance | routes/admin.js:149-161 | an invalid date gives 500 with nothing changed; otherwise the (date, caller) sheet is upserted with the cast marks, replacing the old ones, and the invariants hold |
| AdminRoutes.Store.AddStudent | routes/admin.js:116-134 | 400 exactly when the email is registered, creating nothing; 201 iff both the User and the Student are accepted, and then exactly one of each is added; on any failure the users, students and id counter are as before, so a User created before a refused Student has been deleted |
| AdminRoutes.Store.InsertFee | models/Fees.js:33 | a refused fee, or one whose (student, month, tuitionId) key is taken, is not stored and the id counter is unchanged; otherwise it is appended and the index stays unique |
| StudentRoutes.ProfileOf | routes/student.js:81 | the caller's Student is one whose user is the caller; there is none exactly when no stored Student has that user |
| StudentRoutes.MyStatusAttendance | routes/student.js:51-54 | `countDocuments` with the two array conditions counts at most the stored sheets, and 0 when no sheet both names the student and holds some Present mark |
| StudentRoutes.ProfileAttendance | routes/student.js:115 | `/profile` lists exactly the stored sheets that hold a mark naming the student, whatever its status: every listed sheet has one, and every such stored sheet is listed |
| StudentRoutes.AttendanceCountsOrdered | routes/student.js:51-54 | the `/my-status` count lies between the number of sheets where the student's own mark is Present and the `/profile` count |
| StudentRoutes.AbsentStudentCounted | routes/student.js:51-54 | a sheet where the student is Absent and another student is Present counts for `/my-status` |
| StudentRoutes.MyStatus | routes/student.js:40-74 | 404 exactly when the caller has no Student; 500 exactly when there is one and populate is strict; otherwise the Student found for the caller, the tuition name "Academy", the due amount and paid history of the student copy of the fee calculator (`StudentFeeDetails`), and the attendance count `MyStatusAttendance`, which lies between the student's own Present sheets and `/profile`'s count (`AttendanceCountsOrdered`) and counts sheets where the student is Absent (`AbsentStudentCounted`) |
| StudentRoutes.Profile | routes/student.js:107-134 | 404 exactly when the caller has no Student; 500 exactly when there is one and populate is strict; otherwise the Student found for the caller, the tuition name "Academy", the history `ProfileAttendance` (each stored sheet naming the student once, in store order) and its length as the attendance count, and the whole result of `StudentFeeDetails` for that student |
| StudentRoutes.StudentNoticeList | routes/student.js:88 | the student notice list has at most 10 stored notices, latest date first |
| StudentRoutes.StudentNotices | routes/student.js:79-102 | 404 exactly when the caller has no Student; otherwise the notice list |
| StudentRoutes.StudentNoticesIgnoreTuition | routes/student.js:88 | read as a match on null the list is always empty; with the condition dropped it is the 10 latest notices of every tuition |
| UrlHelper.GetStudentPhoto | utils/urlHelper.js:1-12 | a missing or empty path gives the avatar URL; a path starting with "/" gives BASE_URL + path, any other path BASE_URL + "/" + path; every such URL starts with BASE_URL + "/" and ends with the path |
| UrlHelper.SlashNormalised | utils/urlHelper.js:10 | a path and the same path with a leading "/" give the same URL |
| UrlHelper.AvatarOnlyWithoutPath | utils/urlHelper.js:4-7 | the avatar URL is returned if and only if the path is missing or empty |
| UrlHelper.PathRoundTrip | utils/urlHelper.js:10-11 | dropping BASE_URL from the URL of a path that starts with "/" gives the path back |
| WhatsappHelper.CleanPhone | utils/whatsappHelper.js:10 | the cleaned phone holds only the characters 0-9 and is no longer than the input |
| WhatsappHelper.CleanPhoneAppend | utils/whatsappHelper.js:10 | cleaning works character by character, so the digits keep their order |
| WhatsappHelper.CleanPhoneKeepsDigits | utils/whatsappHelper.js:10 | every digit occurs in the cleaned phone as often as in the input, and no other character occurs at all |
| WhatsappHelper.CleanPhoneOfDigits | utils/whatsappHelper.js:10 | a phone made only of digits is unchanged, so cleaning is idempotent |
| WhatsappHelper.WhatsAppTarget | utils/whatsappHelper.js:3-22 | a missing or empty phone gives no URL; otherwise the app URL is exactly "whatsapp://send?text=" + message + "&phone=91" + cleaned phone, and the browser URL exactly "https://wa.me/91" + cleaned phone + "?text=" + message (prefix, total length and suffix) |
| WhatsappHelper.BrowserUrlPhoneRoundTrip | utils/whatsappHelper.js:21 | the cleaned phone read back from the browser URL, between the country code and "?", is the cleaned phone, whatever the message is |

## Left out

- server.js (Express wiring, the Mongo connection, `listen`), routes/auth.js and seedAdmin.js (bcrypt, JWT, connection set-up) are not part of this model. Both of the latter try to create an ADMIN user without `tuitionName`. The `required` validator of models/User.js:22 refuses that save (`UserModel.TuitionNameOnlyForAdmin`), so `/admin-signup` answers 500 and the seed script fails. Neither path can create an ADMIN. Only data written outside these files could hold an ADMIN without `tuitionName`; `Store.Valid` demands valid users, so such data lies outside the model.
- models/Settings.js is not part of this model. It registers a second schema under the model name `Notice` and adds no logic.
- The `/students` listing (routes/admin.js:137-146) and its `populate('user', ...)` join are not modelled. They are display concerns.
- The `populate('admin', ...)` of routes/student.js:42, 109 is modelled only by its outcome: a 500 under strict populate, and an undefined `admin` (tuition name "Academy") otherwise. Which Mongoose version the server runs is not fixed by these files.
- Multer uploads, file naming from `Date.now()` and `sendEmail` (routes/admin.js:23-29, 128) are file and email I/O. The upload is an optional file name.
- The password is not hashed in the model. The bcrypt hash is an input, and a missing password is the case in which bcrypt throws.
- The `Linking`/`Alert` promise chain of utils/whatsappHelper.js is left out. `encodeURIComponent(message)` is the already-encoded input, and whether the app URL is supported is a boolean input.
- Clock reads are parameters: "today", the month label from `toLocaleString`, and the creation instant. Time of day and time zones are not modelled; dates are (year, month, day).
- Fee amounts and rates are integers. JavaScript floating-point numbers are not modelled.
- Concurrency is not modelled. In particular, the email check and the User insert of `/add-student` do not run atomically, and neither do concurrent upserts.
- Response messages, the JSON bodies of the state-changing handlers (`/add-notice`, `/notice/:id`, `/mark-attendance`, `/add-student`) beyond their status codes, and 500 responses caused by a failing database are not modelled. The bodies of `/analytics`, `/notices`, `/my-status` and `/profile` are modelled.
- Mongo leaves the order of equal sort keys unspecified. The model keeps natural order among equal keys.
- How the driver treats an undefined filter value is the parameter `UndefinedFilter`, not a fixed choice.
- No route in these files writes Fee records. `Store.InsertFee` models only the unique index of models/Fees.js:33.
- An invalid `date` in `/mark-attendance` is a missing date. A missing `records` field is not modelled.
- A refused write reports only the first failing path, not Mongoose's full list of errors.
- AdminRoutes.Store.Analytics: states the student count only as a bound by the number of stored students. Its Present figure is `PresentToday`, whose value on a stored sheet is stated by the separate lemma `PresentTodayIsSheetCount`, not by `Analytics` itself.
