# DocFlow client: the page logic, as pure transitions

This project models the decision logic of the DocFlow document-vault web
client. The client is a React application. Its pages (login by one-time
password, registration, search, upload, admin) keep form state and talk to a
remote document-management API. Pulled out of the rendering code, each event
handler is a total function:

    (form state, storage, input, settled server reply) -> (new state, request sent, toast shown)

- The server reply is a value: `Remote.Reply<B>` is `Threw`, meaning the handler's
  `catch` block ran, or `Answered(ok, body)`.
- The browser's `localStorage` is a `map<string, string>`.
- A toast is a `Remote.Notice`.
- A navigation is an optional route.

Modules:

- `Wrappers`: `Option`.
- `Text`:
  - JavaScript's `String.prototype.trim`, over the ECMAScript white-space and
    line-terminator set;
  - the `replace(/\D/g, "").slice(0, n)` input normaliser.
- `CalendarDates`: the `dd-MM-yyyy` rendering of a calendar date, and a parser for it.
  The round trip is proved.
- `Remote`: the reply and toast shapes, and `v || fallback` on an optional string.
- `Session`: the `auth_token` and `user_id` storage entries; sign-in and sign-out.
- `Tags`: the tag editor shared by search and upload.
- `Taxonomy`: the category and sub-category lists, and the rule that changing the
  category clears the sub-category.
- `Search`: the query builder, result handling, the preview dialog, and the page as a
  state machine.
- `Upload`: the file allow-list, the required fields, the payload, reset and keep on
  reply, and the page as a state machine.
- `Login`: the two-step OTP exchange as an `otpSent`/session state machine.
- `Admin`: the create-user validator, and logout.
- `Signup`: the registration validator and its outcome.
- `Scenarios`: journeys across pages, such as a login followed by a search or an upload.

The search, upload and login pages each have a `PageInvariant`, a `Step`
over the page's events and a `Run` over any sequence of them.
`RunKeepsInvariant` proves by induction that the invariant holds along every
run. `StartKeepsInvariant` adds the base case: the page's initial state, the
`useState` values it opens with, satisfies the invariant. So the invariant
holds on every state the page can reach. The admin and signup pages keep no
state beyond their form fields and are modelled handler by handler.

Where a reading of the page's intended behaviour and its code differ, the model follows the code:

- The search and upload requests send `token || ""`. A signed-out user's
  request still goes out with an empty token. Nothing on these pages reports an
  authentication error separately.
- Removing a tag drops every equal entry (`filter`), not only one.
- The file allow-list has four types, including the non-standard `image/jpg`.
- Submission does not re-check the file type. `Upload.SubmitFromStart`
  shows that no form reached after the page opens needs that check.
- Nothing orders the search's from-date and to-date.
- A thrown search leaves the previous results in place.
- OTP validation does not itself require `otpSent`. It only checks the OTP's length.
- A successful upload clears every field except the tag input box.

## Model

| member | source | states |
|---|---|---|
| Text.Trim | src/pages/Search.tsx:58 | `tagInput.trim()`: the result is a contiguous part of the input with no white space at either end, and everything cut off on either side is white space |
| Text.TrimFixedPoint | src/pages/Search.tsx:58 | trimming leaves a string unchanged exactly when it has no white space at either end |
| Text.TrimIdempotent | src/pages/Search.tsx:58 | trimming twice is trimming once |
| Text.TrimEmptyIffBlank | src/pages/Search.tsx:58 | the trimmed input is empty exactly when the input is all white space, the case `handleAddTag` refuses |
| Text.DigitsOnly | src/pages/Login.tsx:156 | `replace(/\D/g, "")` yields only digits, is never longer than its input, and leaves a digit string as it is |
| Text.DigitsOnlyCounts | src/pages/Login.tsx:156 | `replace(/\D/g, "")` removes exactly the non-digits: every digit occurs as often as in the input, no other character occurs |
| Text.DigitsOnlyConcat | src/pages/Login.tsx:156 | removing non-digits works piecewise on a concatenation, so the digits keep their order |
| Text.KeepDigits | src/pages/Login.tsx:156 | the normalised value is all digits, at most `max` long, and is the digit string cut to `max` |
| Text.KeepDigitsIdempotent | src/pages/Login.tsx:177 | normalising an input value a second time changes nothing |
| Text.KeepDigitsFixedPoint | src/pages/signup.tsx:77 | the normaliser leaves a value unchanged exactly when it is a digit string no longer than the limit |
| CalendarDates.FormatDate | src/pages/Upload.tsx:88 | `format(date, "dd-MM-yyyy")`: a two-digit day, a hyphen, a two-digit month, a hyphen, then the year with zeros in front up to four digits and no further; each field reads back as its part of the date |
| CalendarDates.ParseDate | src/pages/Upload.tsx:88 | reading a `dd-MM-yyyy` string back only ever yields a real calendar date |
| CalendarDates.ParseToDigits | src/pages/Search.tsx:96 | a count written as a decimal numeral reads back as that count |
| CalendarDates.ParseFormatRoundTrip | src/pages/Upload.tsx:88 | `format(date, "dd-MM-yyyy")` loses nothing: the string reads back as the same date |
| CalendarDates.FormatInjective | src/pages/Search.tsx:73-74 | distinct dates never render to the same `dd-MM-yyyy` string |
| Remote.OrElse | src/pages/Upload.tsx:123 | `data.message \|\| fallback`: the field when it is present and non-empty, the fallback otherwise |
| Session.ItemOr | src/pages/Search.tsx:76 | `localStorage.getItem(key) \|\| fallback`: the stored value unless it is missing or empty |
| Session.ActorId | src/pages/Search.tsx:76 | the `user_id` sent is never empty: the stored id, or `"user"` when none or an empty one is stored |
| Session.TokenHeader | src/pages/Search.tsx:80-85 | the `token` header is the stored token, or `""` when none is stored |
| Session.SignIn | src/pages/Login.tsx:91-93 | a sign-in writes both `auth_token` and `user_id`; every other entry is unchanged |
| Session.SignOut | src/pages/Admin.tsx:22-26 | a logout removes exactly `auth_token` and `user_id`; every other entry is unchanged |
| Session.SignOutUndoesSignIn | src/pages/Admin.tsx:22-26 | logging out after a sign-in leaves storage as logging out alone would have |
| Session.SignedInRequestsCarrySession | src/pages/Login.tsx:91-93 | after a sign-in, requests carry the new token, and the new id when it is not empty |
| Tags.AddTag | src/pages/Search.tsx:57-62 | the list changes exactly when the trimmed input is non-empty and new; it then gains that tag at the end and the box is cleared; well-formedness is kept |
| Tags.RemoveTag | src/pages/Search.tsx:64-66 | the removed tag no longer occurs; every other tag keeps its number of occurrences; no tag is introduced; removing an absent tag changes nothing |
| Tags.RemoveTagConcat | src/pages/Search.tsx:64-66 | filtering works piecewise on a concatenation, so the remaining tags keep their relative order |
| Tags.RemoveTagKeepsWellFormed | src/pages/Upload.tsx:51-53 | removing a tag keeps the list free of blank, untrimmed and repeated entries |
| Tags.AddThenRemove | src/pages/Search.tsx:57-66 | adding a fresh tag and then removing it restores the original list |
| Tags.AddIdempotent | src/pages/Upload.tsx:44-49 | pressing "Add" again after an addition, or re-entering the same text, changes nothing |
| Tags.ToWire | src/pages/Search.tsx:75 | `tags.map(tag => ({ tag_name: tag }))`: one record per tag, in order, each naming its tag |
| Tags.FromWireToWire | src/pages/Upload.tsx:90 | the tag names read back from the wire records are the tag list |
| Taxonomy.MinorHeadOptions | src/pages/Search.tsx:52-55 | the six names for `"Personal"`; the six departments for every other value, including `""` and `"Professional"` |
| Taxonomy.OptionListsShape | src/pages/Upload.tsx:39-40 | each option list has six distinct non-blank entries, and the two lists share none |
| Taxonomy.ChangeCategory | src/pages/Search.tsx:180-183 | choosing a category sets it and clears the sub-category, which leaves the pair consistent |
| Taxonomy.PickSubCategory | src/pages/Search.tsx:195-209 | a sub-category offered by the chosen category keeps the pair consistent |
| Taxonomy.NoCrossCategorySubCategory | src/pages/Upload.tsx:42 | a consistent Personal pair never holds a department, and any other category never holds a name |
| Search.BuildQuery | src/pages/Search.tsx:70-77 | empty heads, absent dates and an empty tag list are omitted; each date is included on its own; tags travel in order; `user_id` falls back to `"user"` |
| Search.QueryRoundTrip | src/pages/Search.tsx:70-77 | omitting fields loses nothing: every filter of the form can be read back from the query |
| Search.EmptyFormQuery | src/pages/Search.tsx:70-77 | an untouched form sends nothing but the actor id |
| Search.HandleSearch | src/pages/Search.tsx:68-113 | the request is the stored token plus the built query; the previous results stay when the call throws, with the error toast; ok with `documents` takes them and reports their count; anything else empties the list with the "No results" toast; `loading` ends false and nothing else in the form changes |
| Search.Found | src/pages/Search.tsx:94-97 | the success toast is not destructive, and the numeral in "Found N document(s)" reads back as the number of documents |
| Search.ShowsAsPdfSuffix | src/pages/Search.tsx:362 | the PDF viewer is chosen by a case-sensitive `.pdf` suffix |
| Search.Preview | src/pages/Search.tsx:116-119 | opening a preview shows the dialog on the given path and changes nothing else |
| Search.Step | src/pages/Search.tsx:180-356 | every event keeps the page invariant: a consistent category pair, real calendar dates in both pickers, well-formed tags, and no search left loading |
| Search.RunKeepsInvariant | src/pages/Search.tsx:180-356 | the page invariant holds along every sequence of events |
| Search.StartKeepsInvariant | src/pages/Search.tsx:30-39 | the empty form the page opens with satisfies the invariant, and so does every form reached from it by any sequence of events |
| Upload.SelectFile | src/pages/Upload.tsx:55-69 | no file selected changes nothing; a disallowed type is refused with a destructive toast; an allowed type replaces the file |
| Upload.Payload | src/pages/Upload.tsx:85-92 | the heads and remarks are sent verbatim; the date is sent as `format(date, "dd-MM-yyyy")` and reads back as the date; the tags are always present, in order; `user_id` falls back to `"user"` |
| Upload.Submit | src/pages/Upload.tsx:71-136 | a request is built exactly when file, date, category and sub-category are present; refusal keeps the form untouched; ok resets every field but the tag box; failure keeps the form and reports `message` or the fallback |
| Upload.Step | src/pages/Upload.tsx:55-306 | every event keeps the page invariant: an allowed file type, a real calendar date, a consistent category pair, well-formed tags, nothing loading |
| Upload.RunKeepsInvariant | src/pages/Upload.tsx:55-306 | the page invariant holds along every sequence of events, so a held file always has an allowed type: it is only set after the allow-list check and only cleared on success |
| Upload.ReachableDateRoundTrip | src/pages/Upload.tsx:88 | on a ready form satisfying the page invariant, the `document_date` sent reads back as the date picked |
| Upload.OnlyAllowedTypesSent | src/pages/Upload.tsx:71-83 | on a form satisfying the page invariant, a submitted file always has an allowed type, though submission does not check it |
| Upload.StartKeepsInvariant | src/pages/Upload.tsx:19-26 | the form the page opens with satisfies the invariant, and so does every form reached from it by any sequence of events |
| Upload.SubmitFromStart | src/pages/Upload.tsx:55-92 | whatever the user did since the page opened, a submitted file has an allowed type and the date sent reads back as the date picked |
| Login.EditMobile | src/pages/Login.tsx:156 | the mobile field becomes the input's digits, in order, cut to the first ten; a typed digit string of at most ten is kept as it is; nothing else changes |
| Login.EditOtp | src/pages/Login.tsx:177 | the OTP field becomes the input's digits, in order, cut to the first six; a typed digit string of at most six is kept as it is; nothing else changes |
| Login.GenerateOtp | src/pages/Login.tsx:23-67 | a request goes out exactly when the number has ten characters, and carries it; otherwise the form is untouched and "Invalid mobile number" is shown; `otpSent` becomes true only on an ok reply, which shows "OTP Sent"; a non-ok reply shows the server's `message` or "Failed to send OTP"; a thrown call shows the fixed retry text |
| Login.ValidateOtp | src/pages/Login.tsx:69-115 | a request goes out exactly when the OTP has six characters, else "Invalid OTP" is shown; the session is written, both entries together, only on an ok reply with a token, which shows the welcome toast and goes to `/dashboard`; otherwise storage is unchanged, no navigation happens, a rejection shows the server's `message` or "Invalid OTP", and a thrown call shows the fixed retry text |
| Login.ChangeNumber | src/pages/Login.tsx:184-187 | back to the mobile step with the OTP cleared and the number kept |
| Login.Step | src/pages/Login.tsx:147-207 | every event keeps the invariant: normalised inputs, the OTP step only with a full number, no half-written session |
| Login.RunKeepsInvariant | src/pages/Login.tsx:147-207 | the login invariant holds along every sequence of events |
| Login.StartKeepsInvariant | src/pages/Login.tsx:12-15 | the page opens on the mobile step with empty inputs; from a store with no half-written session, every state reached by any sequence of events satisfies the invariant |
| Login.ResendStaysInOtpStep | src/pages/Login.tsx:200-207 | "Resend OTP" on an OTP step satisfying the page invariant always sends the number and never leaves the step |
| Login.RejectedOtpStaysInOtpStep | src/pages/Login.tsx:99-114 | a rejected or failed validation keeps the OTP step and stores nothing |
| Admin.CreateUser | src/pages/Admin.tsx:28-56 | success exactly when all three fields are filled and the passwords match; missing fields are reported before a mismatch; a refusal keeps the form; success empties it |
| Admin.CreateTwiceReportsMissing | src/pages/Admin.tsx:53-55 | after a success the emptied form is refused as incomplete |
| Admin.HandleLogout | src/pages/Admin.tsx:22-26 | logout removes exactly the two session entries and goes to `/` |
| Admin.LoggedOutRequestsAreAnonymous | src/pages/Search.tsx:76 | after logout, requests carry an empty token and the `"user"` actor id |
| Signup.EditMobile | src/pages/signup.tsx:77 | the mobile field becomes the input's digits, in order, cut to the first ten; a typed digit string of at most ten is kept as it is; the username is unchanged |
| Signup.Register | src/pages/signup.tsx:13-51 | a request goes out exactly when the username is non-empty and the number has ten characters, and carries both verbatim; success exactly when the reply is ok with a truthy `status`; failure and thrown replies give their messages |
| Signup.NormalisedNumberAccepted | src/pages/signup.tsx:14-21 | any input with at least ten digits, normalised, passes the length check |
| Scenarios.AcceptedLoginAuthorisesSearch | src/pages/Login.tsx:91-93 | after an accepted OTP, a search sends the new token and the server's id, or the mobile number |
| Scenarios.AcceptedLoginAuthorisesUpload | src/pages/Login.tsx:91-93 | after an accepted OTP, an upload sends the new token and the server's id, or the mobile number |
| Scenarios.RejectedOtpJourney | src/pages/Login.tsx:147-207 | entering a number, receiving an OTP, typing it and having it rejected ends on the OTP step with both inputs kept and storage untouched |

## Left out

- Rendering, styling and the theme toggle (`document.documentElement`) are presentation only.
- `fetch`, `response.json()`, `FormData` and the endpoint URLs are network I/O.
  A reply is a parameter. A non-JSON body counts as thrown, as it does in the
  `catch` block. So does a JSON `null` body wherever the page then reads a
  field of it, since that read throws too. Examples are `data.token` at
  Login.tsx:91 and `data.documents` at Search.tsx:92 on an ok reply.
- JSON truthiness is reduced to what the pages test. `status` is a boolean and
  the optional strings are `Option`s. A present but falsy `token` or `documents`
  other than `""` is not modelled.
- `toast` and `navigate` are recorded as values in each step, not performed.
- `handleDownload` and the `handleDownloadAll` stub touch the DOM only.
- The dashboard page is a static feature list. Its logout is the one modelled in `Admin.HandleLogout`.
- Concurrency is not modelled: overlapping requests and clicks while `loading`.
  Each handler is modelled from the click to its settled reply, so `loading`
  is false before every event (each `PageInvariant` says so) and no handler
  looks at it. A button disabled by `loading` therefore never arises in the
  model. The Send OTP and Verify OTP buttons (Login.tsx:162 and 194) are also
  disabled while the input is incomplete. Their handlers' own refusal covers
  that case in the model.
- The date pickers deliver dates, not times. The calendar date, not the time
  of day, is all that `format(…, "dd-MM-yyyy")` reads, so a date is a day, month
  and year. Year zero and earlier are not modelled. A day or month the
  calendar does not have cannot be picked, so each page's `Step` leaves the
  form unchanged for such an event.
- date-fns is not part of this model. `CalendarDates.FormatDate` renders its
  `dd`, `MM` and `yyyy` tokens as date-fns documents them, for years from 1 on.
  The date round-trip and injectivity proofs hold under that reading.
- `localStorage` is assumed never to throw; it is a map, which cannot fail. In the
  browser, `setItem` can throw, for example when storage is full or disabled:
  - If `setItem("user_id", …)` throws after `setItem("auth_token", …)` succeeded
    (Login.tsx:92-93), the `catch` block runs and a half-written session
    remains. `Login.PageInvariant` does not promise anything about that case.
  - Search and upload read `user_id` after `setLoading(true)` but outside the
    `try`. If that read throws, `loading` stays true. The "nothing loading"
    clauses of `Search.PageInvariant` and `Upload.PageInvariant` do not cover it.
- `Login.StartKeepsInvariant` assumes the page opens on a store with no
  half-written session, since other code or the user may alter `localStorage`
  between visits.
- Strings are sequences of characters. Characters outside the Basic
  Multilingual Plane, and the string encoding, are not modelled.
- Taxonomy.PickSubCategory: requires a value the select offers under a chosen
  category. The select renders only then and lists only those values. Each
  page's `Step` treats any other value as an event that cannot occur, and
  leaves the form unchanged.
