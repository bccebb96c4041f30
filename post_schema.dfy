/** The stored post (and report) record: its fields, the `reportStatus` enumeration and the
    defaults a new document receives. */
module PostSchema {
  import opened Maybe

  /** A document id. */
  type ObjectId = int

  /** The only values the storage layer admits in `reportStatus`. */
  datatype StorageStatus = ProblemIssued | Pending | Resolved

  /** The string under which a status is stored. */
  function StatusName(s: StorageStatus): string
  {
    match s
    case ProblemIssued => "problemIssued"
    case Pending => "pending"
    case Resolved => "resolved"
  }

  /** The enum validator: the status a string denotes, or `None` for any string outside the
      enumeration. */
  function ParseStatus(name: string): (r: Option<StorageStatus>)
    ensures r.Some? ==> StatusName(r.value) == name
    ensures r.None? <==> forall s :: StatusName(s) != name
  {
    if name == "problemIssued" then Some(ProblemIssued)
    else if name == "pending" then Some(Pending)
    else if name == "resolved" then Some(Resolved)
    else None
  }

  /** Exactly three strings are admitted, and each denotes a different status. */
  lemma StatusVocabulary()
    ensures forall name :: ParseStatus(name).Some? <==> name in ["problemIssued", "pending", "resolved"]
    ensures forall s :: ParseStatus(StatusName(s)) == Some(s)
  {
    forall s ensures ParseStatus(StatusName(s)) == Some(s) {
      match s
      case ProblemIssued =>
      case Pending => assert "pending"[1] != "problemIssued"[1];
      case Resolved =>
    }
  }

  /** The status a post receives when none is given. */
  const DefaultStatus: StorageStatus := ProblemIssued

  /** A stored post. `media`, `mediaType` and the report fields other than the status are
      optional and have no default. */
  datatype Post = Post(
    id: ObjectId,
    user: Option<ObjectId>,
    date: int,
    content: string,
    media: Option<string>,
    mediaType: Option<string>,
    likes: seq<ObjectId>,
    isReport: bool,
    reportTitle: Option<string>,
    reportCategory: Option<string>,
    reportLocation: Option<string>,
    reportStatus: StorageStatus)

  /** The fields handed to `create`; `None` is a field left out. */
  datatype PostFields = PostFields(
    user: Option<ObjectId>,
    date: Option<int>,
    content: Option<string>,
    media: Option<string>,
    mediaType: Option<string>,
    likes: Option<seq<ObjectId>>,
    isReport: Option<bool>,
    reportTitle: Option<string>,
    reportCategory: Option<string>,
    reportLocation: Option<string>,
    reportStatus: Option<string>)

  datatype ValidationError = InvalidStatus(value: string)

  /** The given value of a field, or its default. */
  function OrElse<T>(o: Option<T>, default: T): T
  {
    if o.Some? then o.value else default
  }

  /** Creating a post document with id `id` at time `now` (the clock reading the `date`
      default uses). Fields left out take the schema defaults; a status outside the
      enumeration fails validation and nothing is created. */
  function CreatePost(id: ObjectId, f: PostFields, now: int): (r: Result<Post, ValidationError>)
    ensures r.Err? <==> f.reportStatus.Some? && f.reportStatus.value !in ["problemIssued", "pending", "resolved"]
    ensures r.Err? ==> r.error == InvalidStatus(f.reportStatus.value)
    ensures r.Ok? ==> StatusName(r.value.reportStatus) == OrElse(f.reportStatus, "problemIssued")
    ensures r.Ok? ==> r.value.id == id && r.value.user == f.user && r.value.date == OrElse(f.date, now)
    ensures r.Ok? ==> r.value.content == OrElse(f.content, "") && r.value.isReport == OrElse(f.isReport, false)
    ensures r.Ok? ==> r.value.likes == OrElse(f.likes, [])
    ensures r.Ok? ==> r.value.media == f.media && r.value.mediaType == f.mediaType
    ensures r.Ok? ==> r.value.reportTitle == f.reportTitle && r.value.reportCategory == f.reportCategory
    ensures r.Ok? ==> r.value.reportLocation == f.reportLocation
  {
    StatusVocabulary();
    var status := if f.reportStatus.None? then Some(DefaultStatus) else ParseStatus(f.reportStatus.value);
    if status.None? then Err(InvalidStatus(f.reportStatus.value))
    else Ok(Post(id, f.user, OrElse(f.date, now), OrElse(f.content, ""), f.media, f.mediaType,
                 OrElse(f.likes, []), OrElse(f.isReport, false), f.reportTitle, f.reportCategory,
                 f.reportLocation, status.value))
  }

  /** A post created with only an owner and a content (as the post route does) is a plain post
      with no likes, whose status is `problemIssued`. */
  lemma PlainPostDefaults(id: ObjectId, user: ObjectId, content: Option<string>, now: int)
    ensures var f := PostFields(Some(user), None, content, None, None, None, None, None, None, None, None);
            var r := CreatePost(id, f, now);
            && r.Ok?
            && r.value.reportStatus == ProblemIssued
            && !r.value.isReport
            && r.value.likes == []
            && r.value.content == (if content.Some? then content.value else "")
            && r.value.date == now
  {
  }
}
