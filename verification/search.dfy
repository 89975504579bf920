/**
  The search page: the filter form (category, sub-category, date range,
  tags), the query it sends, how the reply becomes the result list, and the
  preview dialog.
 */
module Search {
  import opened Wrappers
  import Text
  import opened CalendarDates
  import opened Remote
  import opened Session
  import opened Tags
  import opened Taxonomy

  /** One search hit as the server returns it. */
  datatype Document = Document(
    documentId: string,
    documentName: string,
    majorHead: string,
    minorHead: string,
    documentDate: string,
    documentRemarks: string,
    tags: seq<string>,
    filePath: string)

  /** The page's state. */
  datatype SearchForm = SearchForm(
    heads: Heads,
    fromDate: Option<CalendarDate>,
    toDate: Option<CalendarDate>,
    editor: Editor,
    loading: bool,
    results: seq<Document>,
    previewUrl: string,
    showPreview: bool)

  /** The JSON body of a search request; `None` is a field left out of the JSON. */
  datatype SearchQuery = SearchQuery(
    majorHead: Option<string>,
    minorHead: Option<string>,
    fromDate: Option<string>,
    toDate: Option<string>,
    tags: Option<seq<WireTag>>,
    userId: string)

  datatype SearchRequest = SearchRequest(token: string, query: SearchQuery)

  /** The part of the reply body the page reads: `documents`, if present. */
  datatype SearchBody = SearchBody(documents: Option<seq<Document>>)

  datatype SearchStep = SearchStep(form: SearchForm, request: SearchRequest, notice: Notice)

  /** The filters a query expresses, with "not given" as the empty value. */
  datatype Filters = Filters(heads: Heads, fromDate: Option<CalendarDate>, toDate: Option<CalendarDate>, tags: seq<string>)

  const EmptyForm: SearchForm :=
    SearchForm(Heads("", ""), None, None, Editor([], ""), false, [], "", false)

  function FiltersOf(f: SearchForm): Filters
  {
    Filters(f.heads, f.fromDate, f.toDate, f.editor.tags)
  }

  /** `s || undefined`: an empty string is left out. */
  function Given(s: string): Option<string>
  {
    if s == "" then None else Some(s)
  }

  /** The `searchData` object of `handleSearch`. */
  function BuildQuery(f: SearchForm, st: Storage): (q: SearchQuery)
    ensures q.majorHead.None? <==> f.heads.major == ""
    ensures q.majorHead.Some? ==> q.majorHead.value == f.heads.major
    ensures q.minorHead.None? <==> f.heads.minor == ""
    ensures q.minorHead.Some? ==> q.minorHead.value == f.heads.minor
    ensures q.fromDate.Some? <==> f.fromDate.Some?
    ensures f.fromDate.Some? ==> q.fromDate.value == FormatDate(f.fromDate.value)
    ensures q.toDate.Some? <==> f.toDate.Some?
    ensures f.toDate.Some? ==> q.toDate.value == FormatDate(f.toDate.value)
    ensures q.tags.None? <==> f.editor.tags == []
    ensures q.tags.Some? ==> FromWire(q.tags.value) == f.editor.tags
    ensures q.userId == ActorId(st) && q.userId != ""
  {
    SearchQuery(
      Given(f.heads.major),
      Given(f.heads.minor),
      if f.fromDate.Some? then Some(FormatDate(f.fromDate.value)) else None,
      if f.toDate.Some? then Some(FormatDate(f.toDate.value)) else None,
      if |f.editor.tags| > 0 then Some(ToWire(f.editor.tags)) else None,
      ActorId(st))
  }

  /** Reads a date field of a query back (a field that does not parse reads as absent). */
  function DecodeDate(field: Option<string>): Option<CalendarDate>
  {
    if field.Some? then ParseDate(field.value) else None
  }

  /** What a server can recover from a query: omitted fields read as "not given". */
  function DecodeFilters(q: SearchQuery): Filters
  {
    Filters(
      Heads(q.majorHead.GetOr(""), q.minorHead.GetOr("")),
      DecodeDate(q.fromDate),
      DecodeDate(q.toDate),
      if q.tags.Some? then FromWire(q.tags.value) else [])
  }

  /** Leaving fields out loses nothing: every filter of the form can be read
      back from the query. The two dates travel independently; nothing
      orders them. */
  lemma QueryRoundTrip(f: SearchForm, st: Storage)
    requires PickedDate(f.fromDate) && PickedDate(f.toDate)
    ensures DecodeFilters(BuildQuery(f, st)) == FiltersOf(f)
  {
    var q := BuildQuery(f, st);
    if f.fromDate.Some? {
      ParseFormatRoundTrip(f.fromDate.value);
    }
    assert DecodeDate(q.fromDate) == f.fromDate;
    if f.toDate.Some? {
      ParseFormatRoundTrip(f.toDate.value);
    }
    assert DecodeDate(q.toDate) == f.toDate;
    FromWireToWire(f.editor.tags);
  }

  /** An untouched form sends nothing but the actor id. */
  lemma EmptyFormQuery(st: Storage)
    ensures BuildQuery(EmptyForm, st) == SearchQuery(None, None, None, None, None, ActorId(st))
  {
  }

  const SearchFailed: Notice := Notice("Error", "Failed to search documents. Please try again.", true)
  const NoResults: Notice := Notice("No results", "No documents found matching your criteria", false)

  /** The success notice, which reports how many documents came back: the
      numeral between "Found " and " document(s)" reads back as the count. */
  function Found(count: nat): (n: Notice)
    ensures n.title == "Search completed" && !n.destructive
    ensures |n.description| > 18
    ensures var numeral := n.description[6..|n.description| - 12];
            Text.AllDigits(numeral) && ParseNat(numeral) == count
  {
    var text := "Found " + ToDigits(count) + " document(s)";
    assert text[6..|text| - 12] == ToDigits(count);
    ParseToDigits(count);
    Notice("Search completed", text, false)
  }

  /** `handleSearch`. The query is built and sent whatever the reply; the
      reply only decides the new result list and the notice. */
  function HandleSearch(f: SearchForm, st: Storage, reply: Reply<SearchBody>): (r: SearchStep)
    ensures r.request == SearchRequest(TokenHeader(st), BuildQuery(f, st))
    ensures !r.form.loading
    ensures r.form == f.(loading := false, results := r.form.results)
    ensures reply.Threw? ==> r.form.results == f.results && r.notice == SearchFailed
    ensures reply.Answered? && reply.ok && reply.body.documents.Some? ==>
              r.form.results == reply.body.documents.value && r.notice == Found(|r.form.results|)
    ensures reply.Answered? && !(reply.ok && reply.body.documents.Some?) ==>
              r.form.results == [] && r.notice == NoResults
  {
    var request := SearchRequest(TokenHeader(st), BuildQuery(f, st));
    match reply
    case Threw =>
      SearchStep(f.(loading := false), request, SearchFailed)
    case Answered(ok, body) =>
      if ok && body.documents.Some? then
        var docs := body.documents.value;
        SearchStep(f.(loading := false, results := docs), request, Found(|docs|))
      else
        SearchStep(f.(loading := false, results := []), request, NoResults)
  }

  /** The preview dialog shows a PDF viewer for a path ending in ".pdf" and an image otherwise. */
  predicate ShowsAsPdf(url: string)
  {
    |url| >= 4 && url[|url| - 4..] == ".pdf"
  }

  /** The test is a case-sensitive suffix match. */
  lemma ShowsAsPdfSuffix(stem: string, url: string)
    ensures ShowsAsPdf(stem + ".pdf")
    ensures !ShowsAsPdf(stem + ".PDF")
    ensures ShowsAsPdf(url) ==> url == url[..|url| - 4] + ".pdf"
  {
    assert (stem + ".pdf")[|stem|..] == ".pdf";
    assert (stem + ".PDF")[|stem|..] == ".PDF";
  }

  /** `handlePreview`: open the dialog on a document's path. */
  function Preview(f: SearchForm, filePath: string): (r: SearchForm)
    ensures r.showPreview && r.previewUrl == filePath
    ensures r.(previewUrl := f.previewUrl, showPreview := f.showPreview) == f
  {
    f.(previewUrl := filePath, showPreview := true)
  }

  /** What a user can do on the page. */
  datatype SearchEvent =
    | CategoryChosen(value: string)
    | SubCategoryChosen(value: string)
    | FromDatePicked(date: Option<CalendarDate>)
    | ToDatePicked(date: Option<CalendarDate>)
    | TagInputEdited(text: string)
    | AddTagPressed
    | TagRemoved(tag: string)
    | SearchPressed(reply: Reply<SearchBody>)
    | PreviewOpened(filePath: string)
    | PreviewToggled(open: bool)

  /** A picked date, if any, is a real calendar date. */
  predicate PickedDate(d: Option<CalendarDate>)
  {
    d.Some? ==> Valid(d.value)
  }

  /** The page's standing invariant. */
  predicate PageInvariant(f: SearchForm)
  {
    && Consistent(f.heads)
    && PickedDate(f.fromDate) && PickedDate(f.toDate)
    && WellFormed(f.editor.tags)
    && !f.loading
  }

  /** One event. A sub-category the select does not list, or a day the
      calendar does not have, cannot be delivered by the control, so such an
      event changes nothing. */
  function Step(f: SearchForm, st: Storage, ev: SearchEvent): (r: SearchForm)
    ensures PageInvariant(f) ==> PageInvariant(r)
  {
    match ev
    case CategoryChosen(v) => f.(heads := ChangeCategory(f.heads, v))
    case SubCategoryChosen(v) =>
      if f.heads.major != "" && v in MinorHeadOptions(f.heads.major)
      then f.(heads := PickSubCategory(f.heads, v)) else f
    case FromDatePicked(d) => if PickedDate(d) then f.(fromDate := d) else f
    case ToDatePicked(d) => if PickedDate(d) then f.(toDate := d) else f
    case TagInputEdited(text) => f.(editor := f.editor.(input := text))
    case AddTagPressed => f.(editor := AddTag(f.editor))
    case TagRemoved(t) =>
      RemoveTagKeepsWellFormed(f.editor.tags, t);
      f.(editor := f.editor.(tags := RemoveTag(f.editor.tags, t)))
    case SearchPressed(reply) => HandleSearch(f, st, reply).form
    case PreviewOpened(path) => Preview(f, path)
    case PreviewToggled(open) => f.(showPreview := open)
  }

  function Run(f: SearchForm, st: Storage, evs: seq<SearchEvent>): SearchForm
    decreases |evs|
  {
    if evs == [] then f else Run(Step(f, st, evs[0]), st, evs[1..])
  }

  /** Along any sequence of events the sub-category stays consistent with the
      category, the dates stay real dates, the tags stay well-formed, and no
      search is left loading. */
  lemma {:induction false} RunKeepsInvariant(f: SearchForm, st: Storage, evs: seq<SearchEvent>)
    requires PageInvariant(f)
    ensures PageInvariant(Run(f, st, evs))
    decreases |evs|
  {
    if evs != [] {
      RunKeepsInvariant(Step(f, st, evs[0]), st, evs[1..]);
    }
  }
  /** The page starts with the empty form, which satisfies the invariant, so
      the invariant holds on every form the page can reach. */
  lemma {:induction false} StartKeepsInvariant(st: Storage, evs: seq<SearchEvent>)
    ensures PageInvariant(Run(EmptyForm, st, evs))
  {
    RunKeepsInvariant(EmptyForm, st, evs);
  }

}
