/**
  The upload page: choosing a file against the type allow-list, the required
  fields, the multipart payload, and how the reply resets or keeps the form.
 */
module Upload {
  import opened Wrappers
  import opened CalendarDates
  import opened Remote
  import opened Session
  import opened Tags
  import opened Taxonomy

  /** A chosen file; only its name and MIME type matter to the page. */
  datatype FileBlob = FileBlob(name: string, mimeType: string)

  const AllowedTypes: seq<string> := ["application/pdf", "image/png", "image/jpeg", "image/jpg"]

  /** The page's state. */
  datatype UploadForm = UploadForm(
    file: Option<FileBlob>,
    date: Option<CalendarDate>,
    heads: Heads,
    editor: Editor,
    remarks: string,
    loading: bool)

  /** The JSON `data` part of the multipart body. */
  datatype DocumentData = DocumentData(
    majorHead: string,
    minorHead: string,
    documentDate: string,
    documentRemarks: string,
    tags: seq<WireTag>,
    userId: string)

  /** The multipart request: the `token` header, the `file` part and the `data` part. */
  datatype UploadRequest = UploadRequest(token: string, file: FileBlob, data: DocumentData)

  /** The part of the reply body the page reads: `message`, if present. */
  datatype UploadBody = UploadBody(message: Option<string>)

  /** The form as the page first renders it. */
  const InitialForm: UploadForm := UploadForm(None, None, Heads("", ""), Editor([], ""), "", false)

  datatype FileStep = FileStep(form: UploadForm, notice: Option<Notice>)

  datatype UploadStep = UploadStep(form: UploadForm, request: Option<UploadRequest>, notice: Notice)

  const UploadFailed: string := "Failed to upload document"
  const UploadThrew: string := "Failed to upload document. Please try again."

  /** `handleFileChange`. `picked` is `e.target.files?.[0]`: no file is a
      no-op, a file of another type is refused with a notice, any other file
      replaces the current one. */
  function SelectFile(f: UploadForm, picked: Option<FileBlob>): (r: FileStep)
    ensures picked.None? ==> r.form == f && r.notice.None?
    ensures picked.Some? && picked.value.mimeType !in AllowedTypes ==>
              r.form == f && r.notice.Some? && r.notice.value.destructive
    ensures picked.Some? && picked.value.mimeType in AllowedTypes ==>
              r.form == f.(file := picked) && r.notice.None?
  {
    match picked
    case None => FileStep(f, None)
    case Some(file) =>
      if file.mimeType !in AllowedTypes then
        FileStep(f, Some(Notice("Invalid file type",
                                "Only PDF and image files (PNG, JPG, JPEG) are allowed", true)))
      else FileStep(f.(file := picked), None)
  }

  /** All four required fields are filled in. The file's type is not looked at again. */
  predicate Ready(f: UploadForm)
  {
    f.file.Some? && f.date.Some? && f.heads.major != "" && f.heads.minor != ""
  }

  /** The `documentData` object of `handleSubmit`. Unlike a search, the tag
      list is always sent, even when empty, and the remarks go verbatim. */
  function Payload(f: UploadForm, st: Storage): (d: DocumentData)
    requires Ready(f)
    ensures d.majorHead == f.heads.major && d.minorHead == f.heads.minor
    ensures d.documentDate == FormatDate(f.date.value)
    ensures Valid(f.date.value) ==> ParseDate(d.documentDate) == f.date
    ensures d.documentRemarks == f.remarks
    ensures FromWire(d.tags) == f.editor.tags
    ensures d.userId == ActorId(st) && d.userId != ""
  {
    FromWireToWire(f.editor.tags);
    DocumentData(f.heads.major, f.heads.minor, FormatDate(f.date.value), f.remarks,
                 ToWire(f.editor.tags), ActorId(st))
  }

  /** The form after a successful upload: every field emptied except the tag
      input box, which the page does not clear. */
  function Cleared(f: UploadForm): UploadForm
  {
    UploadForm(None, None, Heads("", ""), Editor([], f.editor.input), "", false)
  }

  /** `handleSubmit`. */
  function Submit(f: UploadForm, st: Storage, reply: Reply<UploadBody>): (r: UploadStep)
    ensures r.request.Some? <==> Ready(f)
    ensures !Ready(f) ==> r.form == f && r.notice.destructive
    ensures Ready(f) ==>
              && r.request.value.token == TokenHeader(st)
              && r.request.value.file == f.file.value
              && r.request.value.data == Payload(f, st)
    ensures Ready(f) ==> !r.form.loading
    ensures Ready(f) && reply.Answered? && reply.ok ==>
              r.form.file.None? && r.form.date.None? && r.form.heads == Heads("", "")
              && r.form.editor.tags == [] && r.form.remarks == ""
              && r.form.editor.input == f.editor.input && !r.notice.destructive
    ensures Ready(f) && !(reply.Answered? && reply.ok) ==>
              r.form == f.(loading := false) && r.notice.destructive
    ensures Ready(f) && reply.Answered? && !reply.ok ==>
              r.notice.description == OrElse(reply.body.message, UploadFailed)
    ensures Ready(f) && reply.Threw? ==> r.notice.description == UploadThrew
  {
    if !Ready(f) then
      UploadStep(f, None, Notice("Missing fields", "Please fill in all required fields", true))
    else
      var request := UploadRequest(TokenHeader(st), f.file.value, Payload(f, st));
      match reply
      case Threw =>
        UploadStep(f.(loading := false), Some(request), Notice("Error", UploadThrew, true))
      case Answered(ok, body) =>
        if ok then
          UploadStep(Cleared(f), Some(request), Notice("Success", "Document uploaded successfully", false))
        else
          UploadStep(f.(loading := false), Some(request),
                     Notice("Error", OrElse(body.message, UploadFailed), true))
  }

  /** What a user can do on the page. */
  datatype UploadEvent =
    | FilePicked(picked: Option<FileBlob>)
    | DatePicked(date: Option<CalendarDate>)
    | CategoryChosen(value: string)
    | SubCategoryChosen(value: string)
    | TagInputEdited(text: string)
    | AddTagPressed
    | TagRemoved(tag: string)
    | RemarksEdited(text: string)
    | SubmitPressed(reply: Reply<UploadBody>)

  /** The page's standing invariant: a held file has an allowed type, a held
      date is a real calendar date, the sub-category fits the category, the
      tags are well-formed, nothing is loading. */
  predicate PageInvariant(f: UploadForm)
  {
    && (f.file.Some? ==> f.file.value.mimeType in AllowedTypes)
    && (f.date.Some? ==> Valid(f.date.value))
    && Consistent(f.heads)
    && WellFormed(f.editor.tags)
    && !f.loading
  }

  /** One event, in a store whose contents the page only reads. A
      sub-category the select does not list, or a day the calendar does not
      have, cannot be delivered by the control, so such an event changes nothing. */
  function Step(f: UploadForm, st: Storage, ev: UploadEvent): (r: UploadForm)
    ensures PageInvariant(f) ==> PageInvariant(r)
  {
    match ev
    case FilePicked(picked) => SelectFile(f, picked).form
    case DatePicked(d) => if d.Some? && !Valid(d.value) then f else f.(date := d)
    case CategoryChosen(v) => f.(heads := ChangeCategory(f.heads, v))
    case SubCategoryChosen(v) =>
      if f.heads.major != "" && v in MinorHeadOptions(f.heads.major)
      then f.(heads := PickSubCategory(f.heads, v)) else f
    case TagInputEdited(text) => f.(editor := f.editor.(input := text))
    case AddTagPressed => f.(editor := AddTag(f.editor))
    case TagRemoved(t) =>
      RemoveTagKeepsWellFormed(f.editor.tags, t);
      f.(editor := f.editor.(tags := RemoveTag(f.editor.tags, t)))
    case RemarksEdited(text) => f.(remarks := text)
    case SubmitPressed(reply) => Submit(f, st, reply).form
  }

  function Run(f: UploadForm, st: Storage, evs: seq<UploadEvent>): UploadForm
    decreases |evs|
  {
    if evs == [] then f else Run(Step(f, st, evs[0]), st, evs[1..])
  }

  /** Along any sequence of events the invariant holds throughout. */
  lemma {:induction false} RunKeepsInvariant(f: UploadForm, st: Storage, evs: seq<UploadEvent>)
    requires PageInvariant(f)
    ensures PageInvariant(Run(f, st, evs))
    decreases |evs|
  {
    if evs != [] {
      RunKeepsInvariant(Step(f, st, evs[0]), st, evs[1..]);
    }
  }

  /** On any reachable form the date sent reads back as the date picked. */
  lemma ReachableDateRoundTrip(f: UploadForm, st: Storage)
    requires PageInvariant(f) && Ready(f)
    ensures ParseDate(Payload(f, st).documentDate) == f.date
  {
  }

  /** The page starts in a state satisfying its invariant, so the invariant
      holds on every form the page can reach. */
  lemma {:induction false} StartKeepsInvariant(st: Storage, evs: seq<UploadEvent>)
    ensures PageInvariant(Run(InitialForm, st, evs))
  {
    RunKeepsInvariant(InitialForm, st, evs);
  }

  /** Whatever the user did since the page opened, a submitted file has an
      allowed type and the date sent reads back as the date picked. */
  lemma {:induction false} SubmitFromStart(st: Storage, evs: seq<UploadEvent>, f: UploadForm, reply: Reply<UploadBody>)
    requires f == Run(InitialForm, st, evs)
    ensures var sent := Submit(f, st, reply).request;
            sent.Some? ==>
              && sent.value.file.mimeType in AllowedTypes
              && ParseDate(sent.value.data.documentDate) == f.date
  {
    StartKeepsInvariant(st, evs);
    OnlyAllowedTypesSent(f, st, reply);
    if Ready(f) {
      ReachableDateRoundTrip(f, st);
    }
  }

  /** Submission does not re-check the file type, yet on any reachable form
      only an allowed type is ever sent. */
  lemma OnlyAllowedTypesSent(f: UploadForm, st: Storage, reply: Reply<UploadBody>)
    requires PageInvariant(f)
    ensures Submit(f, st, reply).request.Some? ==>
              Submit(f, st, reply).request.value.file.mimeType in AllowedTypes
  {
  }
}
