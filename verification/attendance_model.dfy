/** The Attendance schema: one sheet per tuition per day, holding a list of
    (student, status) marks. */
module AttendanceModel {
  import opened Common

  const PRESENT := "Present"
  const ABSENT := "Absent"

  /** One mark. The status is kept as the string that was stored: the schema
      restricts it to PRESENT or ABSENT, but an update that skips validation
      can store any string (see ValidRecord). */
  datatype AttendanceRecord = AttendanceRecord(student: Option<Id>, status: string)

  datatype AttendanceSheet = AttendanceSheet(tuitionId: Id, date: Date, records: seq<AttendanceRecord>)

  /** A mark as submitted in a request body. */
  datatype RecordInput = RecordInput(student: Option<Id>, status: Option<string>)

  /** What the schema demands of a mark: a student, and a status in the enum. */
  predicate ValidRecord(r: AttendanceRecord)
  {
    r.student.Some? && (r.status == PRESENT || r.status == ABSENT)
  }

  /** Casting a submitted mark into the records array: the default status
      PRESENT fills a missing status; nothing is validated. */
  function CastRecord(r: RecordInput): (a: AttendanceRecord)
    ensures a.student == r.student
    ensures r.status.None? ==> a.status == PRESENT
    ensures r.status.Some? ==> a.status == r.status.value
  {
    AttendanceRecord(r.student, match r.status case None => PRESENT case Some(s) => s)
  }

  function CastRecords(rs: seq<RecordInput>): (a: seq<AttendanceRecord>)
    ensures |a| == |rs|
    ensures forall i :: 0 <= i < |rs| ==> a[i] == CastRecord(rs[i])
  {
    if rs == [] then [] else [CastRecord(rs[0])] + CastRecords(rs[1..])
  }

  /** The validation a saved mark goes through: the cast above, then the
      schema's required and enum validators. */
  function CreateRecord(r: RecordInput): (res: Result<AttendanceRecord>)
    ensures res.Ok? <==> ValidRecord(CastRecord(r))
    ensures res.Ok? ==> res.value == CastRecord(r)
  {
    var a := CastRecord(r);
    if a.student.None? then Err(Invalid("records.student"))
    else if !(a.status == PRESENT || a.status == ABSENT) then Err(Invalid("records.status"))
    else Ok(a)
  }

  /** Saving skips no validator, but the update path does: a submitted status
      outside the enum is stored as it is. */
  lemma CastSkipsEnum()
    ensures !ValidRecord(CastRecord(RecordInput(Some(0), Some("Late"))))
    ensures CreateRecord(RecordInput(Some(0), Some("Late"))).Err?
  {
  }

  predicate SameDay(sh: AttendanceSheet, date: Date, tuitionId: Id)
  {
    sh.date == date && sh.tuitionId == tuitionId
  }

  /** The unique index `{ date, tuitionId }`: at most one sheet per key. */
  ghost predicate SheetsUnique(sheets: seq<AttendanceSheet>)
  {
    forall i, j :: 0 <= i < j < |sheets| ==>
      !SameDay(sheets[j], sheets[i].date, sheets[i].tuitionId)
  }

  /** Under the index, two sheets with the same key are the same sheet. */
  lemma SameKeySameSheet(sheets: seq<AttendanceSheet>, a: nat, b: nat)
    requires SheetsUnique(sheets) && a < |sheets| && b < |sheets|
    requires SameDay(sheets[b], sheets[a].date, sheets[a].tuitionId)
    ensures a == b
  {
  }

  /** Two tuitions may each hold a sheet for the same day. */
  lemma TenantsShareDay(date: Date, a: Id, b: Id, ra: seq<AttendanceRecord>, rb: seq<AttendanceRecord>)
    requires a != b
    ensures SheetsUnique([AttendanceSheet(a, date, ra), AttendanceSheet(b, date, rb)])
  {
  }

  /** `records.filter(r => r.status === 'Present').length`. */
  function CountPresent(rs: seq<AttendanceRecord>): (n: nat)
    ensures n <= |rs|
    ensures n == 0 <==> forall i :: 0 <= i < |rs| ==> rs[i].status != PRESENT
    ensures n == |rs| <==> forall i :: 0 <= i < |rs| ==> rs[i].status == PRESENT
  {
    if rs == [] then 0
    else (if rs[0].status == PRESENT then 1 else 0) + CountPresent(rs[1..])
  }

  /** Counting distributes over concatenation of mark lists. */
  lemma {:induction false} CountPresentAppend(a: seq<AttendanceRecord>, b: seq<AttendanceRecord>)
    ensures CountPresent(a + b) == CountPresent(a) + CountPresent(b)
  {
    if a == [] {
      assert a + b == b;
    } else {
      assert (a + b)[1..] == a[1..] + b;
      CountPresentAppend(a[1..], b);
    }
  }
}
