/** The Fee schema: one ledger row per student, month label and tuition. */
module FeesModel {
  import opened Common

  datatype FeeStatus = Paid | Unpaid

  /** A stored fee document. `createdAt` is the creation timestamp the schema
      option `timestamps` adds. */
  datatype FeeRecord = FeeRecord(
    id: Id,
    tuitionId: Id,
    student: Id,
    month: string,
    amount: int,
    status: FeeStatus,
    paymentDate: Option<Date>,
    createdAt: Date)

  /** The fields handed to `Fee.create`; any of them may be missing. */
  datatype FeeInput = FeeInput(
    tuitionId: Option<Id>,
    student: Option<Id>,
    month: Option<string>,
    amount: Option<int>,
    status: Option<string>,
    paymentDate: Option<Date>)

  /** The status enum, with the default `Unpaid` for a missing value. */
  function StatusOf(s: Option<string>): (r: Option<FeeStatus>)
    ensures r == Some(Paid) <==> s == Some("Paid")
    ensures r == Some(Unpaid) <==> s.None? || s == Some("Unpaid")
  {
    match s
    case None => Some(Unpaid)
    case Some(v) => if v == "Paid" then Some(Paid) else if v == "Unpaid" then Some(Unpaid) else None
  }

  /** What the schema accepts: every required path set, status in the enum. */
  predicate AcceptsFee(input: FeeInput)
  {
    input.tuitionId.Some? && input.student.Some? && Filled(input.month)
    && input.amount.Some? && StatusOf(input.status).Some?
  }

  /** Validation and defaults of `Fee.create`, giving the document the id `id`. */
  function CreateFee(input: FeeInput, id: Id, now: Date): (r: Result<FeeRecord>)
    ensures r.Ok? <==> AcceptsFee(input)
    ensures r.Ok? ==>
      && r.value.id == id && r.value.createdAt == now
      && Some(r.value.tuitionId) == input.tuitionId
      && Some(r.value.student) == input.student
      && Some(r.value.month) == input.month && r.value.month != ""
      && Some(r.value.amount) == input.amount
      && r.value.paymentDate == input.paymentDate
      && (input.status.None? ==> r.value.status == Unpaid)
      && (input.status.Some? ==> input.status == Some(if r.value.status == Paid then "Paid" else "Unpaid"))
  {
    if input.tuitionId.None? then Err(Invalid("tuitionId"))
    else if input.student.None? then Err(Invalid("student"))
    else if !Filled(input.month) then Err(Invalid("month"))
    else if input.amount.None? then Err(Invalid("amount"))
    else match StatusOf(input.status)
      case None => Err(Invalid("status"))
      case Some(st) =>
        Ok(FeeRecord(id, input.tuitionId.value, input.student.value, input.month.value,
                     input.amount.value, st, input.paymentDate, now))
  }

  /** The compound key of the unique index `{ student, month, tuitionId }`. */
  function FeeKey(f: FeeRecord): (Id, string, Id)
  {
    (f.student, f.month, f.tuitionId)
  }

  /** At most one fee document per key. */
  ghost predicate FeesUnique(fees: seq<FeeRecord>)
  {
    forall i, j :: 0 <= i < j < |fees| ==> FeeKey(fees[i]) != FeeKey(fees[j])
  }

  predicate KeyTaken(fees: seq<FeeRecord>, f: FeeRecord)
  {
    exists i :: 0 <= i < |fees| && FeeKey(fees[i]) == FeeKey(f)
  }

  /** Appending a document keeps the index unique exactly when its key is not
      yet taken, which is why an insert with a taken key must fail. */
  lemma AppendFeeUnique(fees: seq<FeeRecord>, f: FeeRecord)
    requires FeesUnique(fees)
    ensures FeesUnique(fees + [f]) <==> !KeyTaken(fees, f)
  {
    if KeyTaken(fees, f) {
      var i :| 0 <= i < |fees| && FeeKey(fees[i]) == FeeKey(f);
      assert (fees + [f])[i] == fees[i] && (fees + [f])[|fees|] == f;
    }
  }
}
