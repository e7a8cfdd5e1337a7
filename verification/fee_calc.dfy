/** The fee-liability calculator `calculateFeeDetails`, in its two copies:
    the one in routes/admin.js and the one in routes/student.js. Both derive
    the months owed from a start date and "today", multiply by the monthly
    fee, subtract what the Paid fee records add up to and clamp at zero;
    they differ in the start date they pick, in how they clamp the month
    count, in how they read a missing rate, and in which records they sum. */
module FeeCalc {
  import opened Common
  import opened Query
  import opened FeesModel
  import opened StudentModel

  /** The student fields the calculator reads. Any of them may be undefined
      on a document read back from the store. */
  datatype FeeSubject = FeeSubject(
    id: Id,
    tuitionId: Id,
    feesPerMonth: Option<int>,
    joiningDate: Option<Date>,
    createdAt: Option<Date>)

  /** A stored student, which always has its rate and both dates. */
  function SubjectOf(s: Student): (f: FeeSubject)
    ensures f.id == s.id && f.tuitionId == s.tuitionId
    ensures f.feesPerMonth == Some(s.feesPerMonth)
    ensures f.joiningDate == Some(s.joiningDate) && f.createdAt == Some(s.createdAt)
  {
    FeeSubject(s.id, s.tuitionId, Some(s.feesPerMonth), Some(s.joiningDate), Some(s.createdAt))
  }

  /** The result: the clamped amount due, the month count (None when it is
      NaN, which happens when neither date is set) and the paid history. */
  datatype FeeDetails = FeeDetails(totalDue: int, monthsCount: Option<int>, paidHistory: seq<FeeRecord>)

  /** The whole-month difference between the two (year, month) pairs; the
      day of the month plays no part. */
  function RawMonths(start: Date, today: Date): int
  {
    (today.year - start.year) * 12 + (today.month - start.month)
  }

  function Max(a: int, b: int): int
  {
    if a < b then b else a
  }

  /** `totalDue > 0 ? totalDue : 0`. */
  function Clamp(x: int): (r: int)
    ensures r == Max(x, 0)
  {
    if x > 0 then x else 0
  }

  /** `totalExpected - totalPaid` with `totalExpected = months * rate`,
      clamped at zero: what either copy reports as due. */
  function Due(months: int, rate: int, paid: int): (r: int)
    ensures r == Max(months * rate - paid, 0)
    ensures r >= 0
  {
    Clamp(months * rate - paid)
  }

  /** `paidRecords.reduce((sum, f) => sum + f.amount, 0)`. */
  function SumAmounts(fees: seq<FeeRecord>): int
  {
    if fees == [] then 0 else fees[0].amount + SumAmounts(fees[1..])
  }

  lemma {:induction false} SumAppend(a: seq<FeeRecord>, b: seq<FeeRecord>)
    ensures SumAmounts(a + b) == SumAmounts(a) + SumAmounts(b)
  {
    if a == [] {
      assert a + b == b;
    } else {
      assert (a + b)[1..] == a[1..] + b;
      SumAppend(a[1..], b);
    }
  }

  /** The sum does not depend on the order of the records: any two lists
      holding the same records have the same sum. */
  lemma {:induction false} SumPermutation(a: seq<FeeRecord>, b: seq<FeeRecord>)
    requires multiset(a) == multiset(b)
    ensures SumAmounts(a) == SumAmounts(b)
    decreases |a|
  {
    if a == [] {
      assert |b| == |multiset(b)| == 0;
    } else {
      var x := a[0];
      assert x in multiset(b);
      var k :| 0 <= k < |b| && b[k] == x;
      assert b == b[..k] + [x] + b[k + 1..];
      var rest := b[..k] + b[k + 1..];
      assert a == [x] + a[1..];
      assert multiset(b) == multiset(b[..k]) + multiset{x} + multiset(b[k + 1..]);
      assert multiset(a) == multiset{x} + multiset(a[1..]);
      assert multiset(rest) == multiset(b[..k]) + multiset(b[k + 1..]);
      assert multiset(a[1..]) == multiset(a) - multiset{x};
      assert multiset(a[1..]) == multiset(rest);
      SumPermutation(a[1..], rest);
      SumAppend(b[..k] + [x], b[k + 1..]);
      SumAppend(b[..k], [x]);
      SumAppend(b[..k], b[k + 1..]);
    }
  }

  // ---------------------------------------------------------------
  // The admin copy (routes/admin.js)
  // ---------------------------------------------------------------

  /** `new Date(student.createdAt || student.joiningDate)`. */
  function AdminStart(s: FeeSubject): (d: Option<Date>)
    ensures s.createdAt.Some? ==> d == s.createdAt
    ensures s.createdAt.None? ==> d == s.joiningDate
  {
    if s.createdAt.Some? then s.createdAt else s.joiningDate
  }

  /** `monthsElapsed <= 0 ? 1 : monthsElapsed + 1`. */
  function AdminMonthsCount(raw: int): (n: int)
    ensures n == Max(raw, 0) + 1
    ensures raw <= 0 ==> n == 1
  {
    if raw <= 0 then 1 else raw + 1
  }

  /** The filter `{ student, status: 'Paid', tuitionId }`. */
  predicate AdminCounts(s: FeeSubject, f: FeeRecord)
  {
    f.student == s.id && f.status == Paid && f.tuitionId == s.tuitionId
  }

  /** The records the admin filter selects, in natural order. */
  function AdminMatches(s: FeeSubject, fees: seq<FeeRecord>): seq<FeeRecord>
  {
    Select(fees, f => AdminCounts(s, f))
  }

  /** One more record joins the admin selection exactly when the filter
      selects it. */
  lemma AdminMatchesAppend(s: FeeSubject, fees: seq<FeeRecord>, f: FeeRecord)
    ensures AdminMatches(s, fees + [f]) == AdminMatches(s, fees) + (if AdminCounts(s, f) then [f] else [])
  {
    SelectAppend(fees, [f], g => AdminCounts(s, g));
  }

  function PaymentDateKey(f: FeeRecord): Option<Date>
  {
    f.paymentDate
  }

  /** `Fee.find({ student, status: 'Paid', tuitionId }).sort({ paymentDate: -1 })`. */
  function AdminPaidHistory(s: FeeSubject, fees: seq<FeeRecord>): (h: seq<FeeRecord>)
    ensures multiset(h) == multiset(AdminMatches(s, fees))
    ensures SortedDesc(h, PaymentDateKey)
    ensures forall i :: 0 <= i < |h| ==> AdminCounts(s, h[i])
  {
    var h := SortDesc(AdminMatches(s, fees), PaymentDateKey);
    assert forall i :: 0 <= i < |h| ==> h[i] in multiset(AdminMatches(s, fees));
    h
  }

  /** The admin copy of `calculateFeeDetails` on the day `today`. */
  function AdminFeeDetails(s: FeeSubject, fees: seq<FeeRecord>, today: Date): (d: FeeDetails)
    ensures d.totalDue >= 0
    ensures d.paidHistory == AdminPaidHistory(s, fees)
    ensures d.monthsCount.Some? <==> AdminStart(s).Some?
    ensures d.monthsCount.Some? ==> d.monthsCount.value >= 1
    ensures AdminStart(s).Some? ==>
      d.monthsCount == Some(Max(RawMonths(AdminStart(s).value, today), 0) + 1)
    ensures AdminStart(s).Some? && s.feesPerMonth.Some? ==>
      d.totalDue == Due(d.monthsCount.value, s.feesPerMonth.value, SumAmounts(AdminMatches(s, fees)))
    ensures AdminStart(s).None? || s.feesPerMonth.None? ==> d.totalDue == 0
  {
    var paid := AdminPaidHistory(s, fees);
    SumPermutation(paid, AdminMatches(s, fees));
    var totalPaid := SumAmounts(paid);
    match AdminStart(s)
    case None =>
      // an invalid start date makes the month count NaN, and NaN > 0 is false
      FeeDetails(0, None, paid)
    case Some(start) =>
      var months := AdminMonthsCount(RawMonths(start, today));
      var due := match s.feesPerMonth
        case None => 0  // months * undefined is NaN
        case Some(rate) => Due(months, rate, totalPaid);
      FeeDetails(due, Some(months), paid)
  }

  // ---------------------------------------------------------------
  // The student copy (routes/student.js)
  // ---------------------------------------------------------------

  /** `new Date(student.joiningDate || student.createdAt)`. */
  function StudentStart(s: FeeSubject): (d: Option<Date>)
    ensures s.joiningDate.Some? ==> d == s.joiningDate
    ensures s.joiningDate.None? ==> d == s.createdAt
  {
    if s.joiningDate.Some? then s.joiningDate else s.createdAt
  }

  /** `monthsElapsed < 0 ? 0 : monthsElapsed + 1`. */
  function StudentMonthsCount(raw: int): (n: int)
    ensures n >= 0
    ensures n == 0 <==> raw < 0
    ensures raw >= 0 ==> n == raw + 1
  {
    if raw < 0 then 0 else raw + 1
  }

  /** `student.feesPerMonth || 0`. */
  function RateOrZero(rate: Option<int>): (r: int)
    ensures rate.None? ==> r == 0
    ensures rate.Some? ==> r == rate.value
  {
    // `rate || 0` keeps a stored number: a non-zero one by `||`, and 0 through the fallback
    match rate case None => 0 case Some(v) => v
  }

  /** The filter `{ student, status: 'Paid' }`: no tuition condition. */
  predicate StudentCounts(s: FeeSubject, f: FeeRecord)
  {
    f.student == s.id && f.status == Paid
  }

  /** The records the student filter selects, in natural order. */
  function StudentMatches(s: FeeSubject, fees: seq<FeeRecord>): seq<FeeRecord>
  {
    Select(fees, f => StudentCounts(s, f))
  }

  /** One more record joins the student selection exactly when the filter
      selects it. */
  lemma StudentMatchesAppend(s: FeeSubject, fees: seq<FeeRecord>, f: FeeRecord)
    ensures StudentMatches(s, fees + [f]) == StudentMatches(s, fees) + (if StudentCounts(s, f) then [f] else [])
  {
    SelectAppend(fees, [f], g => StudentCounts(s, g));
  }

  function CreatedAtKey(f: FeeRecord): Option<Date>
  {
    Some(f.createdAt)
  }

  /** `Fee.find({ student, status: 'Paid' }).sort({ createdAt: -1 })`. */
  function StudentPaidHistory(s: FeeSubject, fees: seq<FeeRecord>): (h: seq<FeeRecord>)
    ensures multiset(h) == multiset(StudentMatches(s, fees))
    ensures SortedDesc(h, CreatedAtKey)
    ensures forall i :: 0 <= i < |h| ==> StudentCounts(s, h[i])
  {
    var h := SortDesc(StudentMatches(s, fees), CreatedAtKey);
    assert forall i :: 0 <= i < |h| ==> h[i] in multiset(StudentMatches(s, fees));
    h
  }

  /** The student copy of `calculateFeeDetails` on the day `today`. */
  function StudentFeeDetails(s: FeeSubject, fees: seq<FeeRecord>, today: Date): (d: FeeDetails)
    ensures d.totalDue >= 0
    ensures d.paidHistory == StudentPaidHistory(s, fees)
    ensures d.monthsCount.Some? <==> StudentStart(s).Some?
    ensures d.monthsCount.Some? ==> d.monthsCount.value >= 0
    ensures StudentStart(s).Some? ==>
      d.monthsCount == Some(StudentMonthsCount(RawMonths(StudentStart(s).value, today)))
    ensures StudentStart(s).Some? ==>
      d.totalDue == Due(d.monthsCount.value, RateOrZero(s.feesPerMonth), SumAmounts(StudentMatches(s, fees)))
    ensures StudentStart(s).None? ==> d.totalDue == 0
  {
    var paid := StudentPaidHistory(s, fees);
    SumPermutation(paid, StudentMatches(s, fees));
    var totalPaid := SumAmounts(paid);
    match StudentStart(s)
    case None =>
      FeeDetails(0, None, paid)
    case Some(start) =>
      var months := StudentMonthsCount(RawMonths(start, today));
      FeeDetails(Due(months, RateOrZero(s.feesPerMonth), totalPaid), Some(months), paid)
  }

  // ---------------------------------------------------------------
  // Properties of the two copies
  // ---------------------------------------------------------------

  /** A start date in the current month counts one month in both copies. */
  lemma CurrentMonthCountsOne(s: FeeSubject, fees: seq<FeeRecord>, today: Date)
    requires AdminStart(s).Some? && StudentStart(s).Some?
    requires AdminStart(s).value.year == today.year && AdminStart(s).value.month == today.month
    requires StudentStart(s).value.year == today.year && StudentStart(s).value.month == today.month
    ensures AdminFeeDetails(s, fees, today).monthsCount == Some(1)
    ensures StudentFeeDetails(s, fees, today).monthsCount == Some(1)
  {
  }

  /** The clamps agree on a start in the current or a past month and differ
      by one month on a start in a future month: the admin copy counts 1, the
      student copy 0. */
  lemma MonthClampsDiffer(raw: int)
    ensures raw >= 0 ==> AdminMonthsCount(raw) == StudentMonthsCount(raw)
    ensures raw < 0 ==> AdminMonthsCount(raw) == 1 && StudentMonthsCount(raw) == 0
  {
  }

  /** With both dates set, the admin copy reads only `createdAt`: the joining
      date an admin enters changes nothing. The student copy reads only
      `joiningDate`. */
  lemma StartDatePriority(s: FeeSubject, other: Date, fees: seq<FeeRecord>, today: Date)
    requires s.createdAt.Some? && s.joiningDate.Some?
    ensures AdminFeeDetails(s, fees, today) == AdminFeeDetails(s.(joiningDate := Some(other)), fees, today)
    ensures StudentFeeDetails(s, fees, today) == StudentFeeDetails(s.(createdAt := Some(other)), fees, today)
  {
    var s' := s.(joiningDate := Some(other));
    SelectAgree(fees, f => AdminCounts(s, f), f => AdminCounts(s', f));
    var s'' := s.(createdAt := Some(other));
    SelectAgree(fees, f => StudentCounts(s, f), f => StudentCounts(s'', f));
  }

  /** A record outside the admin filter (another student, not Paid, or
      another tuition) changes nothing in the admin result. */
  lemma AdminIgnoresOtherRecords(s: FeeSubject, fees: seq<FeeRecord>, f: FeeRecord, today: Date)
    requires !AdminCounts(s, f)
    ensures AdminFeeDetails(s, fees + [f], today) == AdminFeeDetails(s, fees, today)
  {
    AdminMatchesAppend(s, fees, f);
    assert AdminMatches(s, fees + [f]) == AdminMatches(s, fees);
  }

  /** The student copy has no tuition condition: a Paid record of the same
      student id filed under another tuition lowers what the student copy
      reports as due by its amount (down to zero), although the admin copy
      ignores it (AdminIgnoresOtherRecords). */
  lemma StudentCountsOtherTuition(s: FeeSubject, fees: seq<FeeRecord>, f: FeeRecord, today: Date)
    requires f.student == s.id && f.status == Paid && f.tuitionId != s.tuitionId
    requires StudentStart(s).Some?
    ensures !AdminCounts(s, f)
    ensures StudentFeeDetails(s, fees + [f], today).totalDue
         == Due(StudentFeeDetails(s, fees, today).monthsCount.value, RateOrZero(s.feesPerMonth),
                SumAmounts(StudentMatches(s, fees)) + f.amount)
  {
    StudentMatchesAppend(s, fees, f);
    SumAppend(StudentMatches(s, fees), [f]);
    assert SumAmounts([f]) == f.amount;
    var d0 := StudentFeeDetails(s, fees, today);
    var d1 := StudentFeeDetails(s, fees + [f], today);
    assert d1.monthsCount == d0.monthsCount;
    assert SumAmounts(StudentMatches(s, fees + [f])) == SumAmounts(StudentMatches(s, fees)) + f.amount;
  }

  /** Recording one more Paid record for the student, in the student's own
      tuition, never raises what the admin copy reports as due. */
  lemma PaymentNeverRaisesDue(s: FeeSubject, fees: seq<FeeRecord>, f: FeeRecord, today: Date)
    requires AdminCounts(s, f) && f.amount >= 0
    ensures AdminFeeDetails(s, fees + [f], today).totalDue <= AdminFeeDetails(s, fees, today).totalDue
  {
    AdminMatchesAppend(s, fees, f);
    SumAppend(AdminMatches(s, fees), [f]);
  }
}
