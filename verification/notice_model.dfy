/** The Notice schema: an announcement owned by one tuition. It has no
    `timestamps` option, so a notice has no `createdAt`. */
module NoticeModel {
  import opened Common

  datatype Notice = Notice(id: Id, tuitionId: Id, title: string, content: string, date: Date)

  datatype NoticeInput = NoticeInput(
    tuitionId: Option<Id>,
    title: Option<string>,
    content: Option<string>,
    date: Option<Date>)

  predicate AcceptsNotice(input: NoticeInput)
  {
    input.tuitionId.Some? && Filled(input.title) && Filled(input.content)
  }

  /** Validation and defaults of `Notice.create` at instant `now`. */
  function CreateNotice(input: NoticeInput, id: Id, now: Date): (r: Result<Notice>)
    ensures r.Ok? <==> AcceptsNotice(input)
    ensures r.Ok? ==>
      && r.value.id == id && Some(r.value.tuitionId) == input.tuitionId
      && Some(r.value.title) == input.title && r.value.title != ""
      && Some(r.value.content) == input.content && r.value.content != ""
      && r.value.date == (if input.date.Some? then input.date.value else now)
  {
    if input.tuitionId.None? then Err(Invalid("tuitionId"))
    else if !Filled(input.title) then Err(Invalid("title"))
    else if !Filled(input.content) then Err(Invalid("content"))
    else Ok(Notice(id, input.tuitionId.value, input.title.value, input.content.value,
                   match input.date case None => now case Some(d) => d))
  }

  /** The key of `sort({ createdAt: -1 })`: a path no notice has, so every
      notice has the same missing key. */
  function MissingCreatedAt(n: Notice): Option<Date>
  {
    None
  }

  /** The key of `sort({ date: -1 })`. */
  function NoticeDateKey(n: Notice): Option<Date>
  {
    Some(n.date)
  }

  /** At most one notice per id. */
  ghost predicate NoticeIdsUnique(ns: seq<Notice>)
  {
    forall i, j :: 0 <= i < j < |ns| ==> ns[i].id != ns[j].id
  }
}
