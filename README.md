# SessionFeedbackApp core in Dafny

A model of the client-side core of SessionFeedbackApp, a React single-page
application where signed-in users rate a session with one to five stars,
leave a comment and optional suggestions, comment on each other's feedback,
delete their own feedback, and where an administrator exports everything
as a CSV file.

The model covers:

- **CSV export** (`csv_export.dfy`, module `CsvExport`): `escapeCSV`,
  `formatDate` and `exportToCSV` up to the download link. The export is an
  imperative method with loops over the feedback and their comments, proved
  equal to a specification function. Its partner is a reader written
  independently in `csv_read.dfy` (module `CsvRead`). It reads the CSV
  dialect `escapeCSV` writes: records end with a line feed, and a field is
  quoted only when it holds a comma, a quote or a line feed. It splits the
  content at the first comma after `data:`, the shape section 3 of RFC 2397
  gives a `data:` URI. Reading the exported content back
  gives the `text/csv;charset=utf-8` media type, the twelve column titles,
  and then, row by row, exactly the values each row was built from. Feedback
  `i` yields `max(1, c_i)` rows, where `c_i` is its number of comments.
- **Submission form** (`submit_feedback.dfy`): the validation order of
  `handleSubmit`, the record handed to `createFeedback`, the star input with
  hover, and the submit button's disabled rule. The component's state is a
  class.
- **Feedback detail page** (`feedback_detail.dfy`): loading the feedback, the
  comments subscription, adding a comment, deleting the feedback, the
  delete button's visibility, the comment count heading, and what renders
  in each state.
- **Admin panel** (`admin.dfy`): the role gate and `handleExport`.
- **Dashboard** (`dashboard.dfy`): the subscription, the three mutually
  exclusive sections, and the cards with their click targets.
- **Shared display rules** (`display.dfy`): the five stars, the `Anonymous`
  and `U` fallbacks, and the `Just now` date label.
- **Routing** (`routes.dfy`): the two route guards of `App.jsx`, the route
  table with its catch-all, and where a visitor ends up after the
  redirects.
- **Helpers**: `text.dfy` models JavaScript's `trim`, one-character
  `toUpperCase` and `String(n)`. `domain.dfy` holds the records. `wrappers.dfy`
  holds `Option` and `Result`.

Backend calls (`createFeedback`, `addComment`, `deleteFeedback`,
`getFeedback`, `getAllFeedbacks`) and `window.confirm` become parameters
that say how the call settles. Each component records its `navigate`
targets and the backend calls it made in sequence fields, so every method
states the whole new state.

Some behaviour of the code worth knowing:

- Validation refuses only a rating of 0, not every rating outside 1 to 5.
  The star buttons only ever set 1 to 5. `SubmitFeedbackForm.Valid` keeps
  that range, and `Submit` proves that every record it sends has a rating
  from 1 to 5.
- The length limits are inclusive. Exactly 2000 (or 1000) characters pass,
  even though the message says "less than".

## Model

| member | source | states |
|---|---|---|
| CsvExport.EscapeCsv | src/utils/csvExport.js:57-64 | null or undefined gives the empty field; otherwise the result is a well-formed field of that dialect that unescapes to the input, and it equals the input exactly when the input holds no comma, quote or line feed |
| CsvExport.CollapseDoubled | src/utils/csvExport.js:61 | doubling every quote is undone by reading doubled quotes as one |
| CsvExport.DoubledArePaired | src/utils/csvExport.js:61 | after doubling, every quote in the text belongs to an adjacent pair |
| CsvExport.CollapseQuoteFree | src/utils/csvExport.js:63 | a value with no quotes reads back as itself |
| CsvExport.EscapeExample | src/utils/csvExport.js:60-61 | `a,b"c` is written as `"a,b""c"` |
| CsvExport.BareCarriageReturnUnquoted | src/utils/csvExport.js:59 | a carriage return is not among the characters that cause quoting: `a\rb` is written as it is, unquoted |
| CsvExport.FormatDate | src/utils/csvExport.js:67-83 | a falsy timestamp, or one that is neither a Firestore timestamp nor a `Date`, gives the empty string; otherwise the ISO text of the date, or the empty string when the date is invalid |
| CsvExport.DateOf | src/utils/csvExport.js:72-77 | a date is carried exactly by a Firestore timestamp, and it is what `toDate()` returns, or by a `Date`, and it is that `Date` |
| CsvExport.FormatDateIsIso | src/utils/csvExport.js:67-83 | a non-empty cell is the ISO text of a valid date the timestamp carries; a valid date is always written as its ISO text; every other timestamp gives the empty cell, so `formatDate` never fails |
| CsvExport.RatingCell | src/utils/csvExport.js:17 | the cell is empty exactly when the rating is absent or 0; a positive rating is written as decimal digits denoting it, with no leading zero |
| CsvExport.LikesCell | src/utils/csvExport.js:21 | an absent or zero count is written `0`; a non-negative count as decimal digits denoting it, with no leading zero |
| CsvExport.NumberCellsAreString | src/utils/csvExport.js:17-21 | a rating or count that is not falsy is written exactly as `String` writes it, negative values included |
| CsvExport.FeedbackRows | src/utils/csvExport.js:11-43 | one row per comment in comment order, or one row with four empty comment cells; every row has twelve cells and starts with the feedback's eight cells |
| CsvExport.RowCount | src/utils/csvExport.js:10-44 | the export has, in total, `max(1, c_i)` data rows summed over the feedback |
| CsvExport.RowsHaveTwelveCells | src/utils/csvExport.js:7-42 | every data row has as many cells as the header has titles |
| CsvExport.RowPosition | src/utils/csvExport.js:10-44 | row `j` of feedback `i` comes right after the rows of the feedback before `i`, so the order of the feedback and their comments is kept |
| CsvExport.AppendFeedback | src/utils/csvExport.js:11-43 | the per-feedback callback appends exactly the text of that feedback's rows |
| CsvExport.ExportToCsv | src/utils/csvExport.js:2-44 | the built content is the `data:` prefix, the header line, then the rows of every feedback in input order |
| CsvRead.ReadRecordBack | src/utils/csvExport.js:27 | a row joined with commas and ended with a line feed reads back as one record holding the row's values |
| CsvRead.ExportReadsBack | src/utils/csvExport.js:7-44 | when ids and dates hold no comma, quote or line feed, reading the CSV text back gives the header titles, then one record per data row with exactly its values |
| CsvRead.ExportIsDataUri | src/utils/csvExport.js:4 | the content has the shape `data:<media type>,<data>`, with media type `text/csv;charset=utf-8` and the header line and the rows as data |
| CsvRead.ExportRoundTrip | src/utils/csvExport.js:2-44 | the content splits into the CSV media type and records that are the titles, then the cell values of `max(1, c_i)` rows per feedback |
| Text.Trim | src/pages/SubmitFeedback.jsx:54 | `trim` returns the part of the text after its leading whitespace; everything around it is whitespace, and it neither starts nor ends with whitespace |
| Text.BlankIffAllWhitespace | src/pages/SubmitFeedback.jsx:30 | `!s.trim()` holds exactly when every character is whitespace |
| Text.TrimIdempotent | src/pages/SubmitFeedback.jsx:54 | trimming twice is trimming once |
| Text.DecimalRoundTrip | src/pages/FeedbackDetail.jsx:224 | the decimal rendering of a count denotes that count |
| Text.IntToDecimal | src/utils/csvExport.js:17 | `String(n)` is a minus sign exactly for negative numbers, followed by decimal digits that denote the magnitude of `n`, with no leading zero |
| Display.RenderStars | src/pages/Dashboard.jsx:39-57 | five stars, star `k` filled exactly when `k <= rating`; none when the rating is missing |
| Display.StarsFillPrefix | src/pages/FeedbackDetail.jsx:112-130 | the filled stars form a prefix, and their number is the rating clamped to 0..5 |
| Display.StarInput | src/pages/SubmitFeedback.jsx:79-80 | five stars; star `k` is lit exactly when `k <= (hoverRating \|\| rating)` |
| Display.StarInputCount | src/pages/SubmitFeedback.jsx:80 | the input lights stars 1 to the hovered star while hovering, and stars 1 to the selected rating otherwise, and no others |
| Display.DisplayName | src/pages/Dashboard.jsx:131 | the name when it is non-empty, `Anonymous` otherwise |
| Display.AvatarInitial | src/pages/Dashboard.jsx:127 | one character: the upper-cased first character of a non-empty name, `U` otherwise |
| Display.AvatarMatchesName | src/pages/FeedbackDetail.jsx:170-174 | the avatar shows the shown name's first character upper-cased, or both fallbacks show together |
| Display.DateLabelOf | src/pages/Dashboard.jsx:22-23 | `Just now` exactly for a falsy timestamp |
| Display.BylineOf | src/pages/FeedbackDetail.jsx:285-290 | a comment's byline is the avatar initial, the shown name and the date label of its author and timestamp; the one-character avatar agrees with the shown name, and the label is `Just now` exactly when there is no timestamp |
| SubmitFeedback.TrimOrNull | src/pages/SubmitFeedback.jsx:55 | `null` exactly for blank suggestions; otherwise exactly the trimmed text, which is non-empty and no longer than the input |
| SubmitFeedback.Validate | src/pages/SubmitFeedback.jsx:25-43 | accepted exactly when the rating is non-zero, the comment is not blank and both lengths are at most 2000; each failure gives its own message in check order; an accepted entry holds the rating, the trimmed comment and the trimmed-or-null suggestions |
| SubmitFeedback.LengthLimits | src/pages/SubmitFeedback.jsx:35-43 | 2000 characters pass and 2001 fail, counted on the text as typed |
| SubmitFeedback.AcceptedEntryIsClean | src/pages/SubmitFeedback.jsx:49-56 | an accepted comment is non-empty, trimmed and at most 2000 long; accepted suggestions are absent or trimmed and at most 2000 long |
| SubmitFeedback.Payload | src/pages/SubmitFeedback.jsx:49-56 | the record carries the user's uid, name and email and the entry's rating, comment and suggestions |
| SubmitFeedback.EnabledButtonPassesPresenceChecks | src/pages/SubmitFeedback.jsx:194 | with the button enabled, only a length check can refuse the form |
| SubmitFeedback.SubmitFeedbackForm.EnabledFormPassesPresenceChecks | src/pages/SubmitFeedback.jsx:194 | when the form's button is enabled, no submission is in flight, a star is chosen, and the form's values can be refused only by a length check |
| SubmitFeedback.SubmitFeedbackForm.constructor | src/pages/SubmitFeedback.jsx:9-14 | no rating, no hover, empty texts, not loading, no error |
| SubmitFeedback.SubmitFeedbackForm.Stars | src/pages/SubmitFeedback.jsx:69-80 | the input has five stars, and star `k` is lit exactly when `k <= (hoverRating \|\| rating)` |
| SubmitFeedback.SubmitFeedbackForm.ClickStar | src/pages/SubmitFeedback.jsx:73 | the clicked star becomes the rating; nothing else changes |
| SubmitFeedback.SubmitFeedbackForm.HoverStar | src/pages/SubmitFeedback.jsx:74 | the hovered star becomes the hover rating; nothing else changes |
| SubmitFeedback.SubmitFeedbackForm.LeaveStars | src/pages/SubmitFeedback.jsx:75-80 | the hover rating is cleared, and the lit stars then count exactly the selected rating |
| SubmitFeedback.SubmitFeedbackForm.EditComment | src/pages/SubmitFeedback.jsx:150 | the comment becomes the typed text; nothing else changes |
| SubmitFeedback.SubmitFeedbackForm.EditSuggestions | src/pages/SubmitFeedback.jsx:173 | the suggestions become the typed text; nothing else changes |
| SubmitFeedback.SubmitFeedbackForm.Cancel | src/pages/SubmitFeedback.jsx:108 | navigates to the dashboard; nothing else changes |
| SubmitFeedback.SubmitFeedbackForm.Submit | src/pages/SubmitFeedback.jsx:21-64 | a refused form shows the first failed check's message and calls nothing; an accepted one makes exactly one call with the payload, then goes to the dashboard and stays loading on success, or shows the retry message and stops loading on failure or without a user; every record sent has a rating from 1 to 5 and a non-empty comment |
| SubmitFeedback.SubmitFeedbackForm.Send | src/pages/SubmitFeedback.jsx:45-63 | an accepted entry clears the error and sets loading; with a user, exactly one call with the payload, then the dashboard on success or the retry message and loading off on failure; without a user, no call and the retry message |
| FeedbackDetail.ValidateComment | src/pages/FeedbackDetail.jsx:52-60 | accepted exactly when the comment is not blank and at most 1000 long; blank comes first; the accepted text is the trimmed comment |
| FeedbackDetail.CommentLengthLimit | src/pages/FeedbackDetail.jsx:57 | 1000 characters pass and 1001 fail |
| FeedbackDetail.AcceptedCommentIsClean | src/pages/FeedbackDetail.jsx:69 | an accepted comment is non-empty, trimmed and at most 1000 long |
| FeedbackDetail.UidOf | src/pages/FeedbackDetail.jsx:183 | `currentUser?.uid` is undefined exactly without a user, and the uid otherwise |
| FeedbackDetail.DeleteOnlyForAuthor | src/pages/FeedbackDetail.jsx:183 | a signed-in user sees the delete button exactly on feedback whose author uid is theirs |
| FeedbackDetail.SignedOutSeesDeleteOnAuthorless | src/pages/FeedbackDetail.jsx:183 | without a user the button shows exactly on feedback without an author uid |
| FeedbackDetail.FeedbackDetailView.constructor | src/pages/FeedbackDetail.jsx:9-15 | no feedback, no comments, empty input, loading, not submitting, no error |
| FeedbackDetail.FeedbackDetailView.Render | src/pages/FeedbackDetail.jsx:132-145 | the spinner exactly while loading, nothing exactly when loading ended without a feedback, the page of the loaded feedback otherwise |
| FeedbackDetail.FeedbackDetailView.CommentBylines | src/pages/FeedbackDetail.jsx:278-290 | one byline per comment, in snapshot order |
| FeedbackDetail.FeedbackDetailView.CommentsHeading | src/pages/FeedbackDetail.jsx:224 | the heading is `Comments (`, then `String` of the number of comments (decimal digits denoting it, with no leading zero), then `)` |
| FeedbackDetail.FeedbackDetailView.LoadFeedback | src/pages/FeedbackDetail.jsx:22-37 | a found document is shown; a missing one sets the not-found message and goes to the dashboard; a thrown error sets the load message; loading ends in every case |
| FeedbackDetail.FeedbackDetailView.OnCommentsSnapshot | src/pages/FeedbackDetail.jsx:42-44 | each snapshot replaces the comment list; nothing else changes |
| FeedbackDetail.FeedbackDetailView.EditComment | src/pages/FeedbackDetail.jsx:231 | the input becomes the typed text; nothing else changes |
| FeedbackDetail.FeedbackDetailView.EnabledPostButtonPassesBlankCheck | src/pages/FeedbackDetail.jsx:243 | with the post button enabled, no comment is in flight and the typed comment is accepted exactly when it is at most 1000 characters long; otherwise it is refused as too long |
| FeedbackDetail.FeedbackDetailView.AddComment | src/pages/FeedbackDetail.jsx:49-79 | a refused comment shows its message and calls nothing; an accepted one makes one call with the uid, name and trimmed text, clears the input on success, keeps it and shows the retry message on failure or without a user, and always ends not submitting |
| FeedbackDetail.FeedbackDetailView.DeleteFeedback | src/pages/FeedbackDetail.jsx:81-93 | nothing happens unless confirmed; then one delete call, and the dashboard on success or the retry message on failure |
| FeedbackDetail.FeedbackDetailView.Back | src/pages/FeedbackDetail.jsx:155 | navigates to the dashboard; nothing else changes |
| FeedbackDetail.LoadThenRender | src/pages/FeedbackDetail.jsx:21-47 | a fresh page shows the spinner, and after loading it shows the page exactly when the feedback was found |
| Admin.GateFor | src/pages/Admin.jsx:16-19 | the panel renders exactly for the role `admin` |
| Admin.AdminPanel.constructor | src/pages/Admin.jsx:10-11 | not loading and no error |
| Admin.AdminPanel.Render | src/pages/Admin.jsx:16-19 | any other role navigates to the dashboard and renders nothing; the admin's render navigates nowhere |
| Admin.AdminPanel.Back | src/pages/Admin.jsx:51 | navigates to the dashboard; nothing else changes |
| Admin.AdminPanel.StartExport | src/pages/Admin.jsx:22-23 | the button is disabled and the error cleared |
| Admin.AdminPanel.FinishExport | src/pages/Admin.jsx:25-40 | a failed fetch shows the retry message; an empty result shows the no-data message; otherwise exactly one download of the export content; the button is enabled again in every case |
| Admin.AdminPanel.Download | src/pages/Admin.jsx:34 | the content handed to the browser is the export content of the fetched feedback |
| Admin.AdminPanel.HandleExport | src/pages/Admin.jsx:21-41 | one click on the enabled button ends with the button enabled and, depending on the fetch, the retry message, the no-data message, or one download with no error |
| Dashboard.FeedbackPath | src/pages/Dashboard.jsx:121 | `/feedback/` followed by exactly the id |
| Dashboard.ExactlyOneSection | src/pages/Dashboard.jsx:83-116 | exactly one of spinner, empty state and list renders |
| Dashboard.CardOf | src/pages/Dashboard.jsx:118-131 | a card opens its feedback's page and shows its byline; its filled stars are stars 1 to the rating clamped into 0..5, and no others |
| Dashboard.DashboardView.constructor | src/pages/Dashboard.jsx:8-9 | an empty list, loading, not yet subscribed |
| Dashboard.DashboardView.Cards | src/pages/Dashboard.jsx:118 | one card per feedback, in snapshot order |
| Dashboard.DashboardView.Mount | src/pages/Dashboard.jsx:13-14 | the subscription is opened; nothing else changes |
| Dashboard.DashboardView.OnSnapshot | src/pages/Dashboard.jsx:14-17 | the list becomes the snapshot and the spinner goes; the list shows exactly for a non-empty snapshot, the empty state otherwise |
| Dashboard.DashboardView.Unmount | src/pages/Dashboard.jsx:19 | the subscription is closed; nothing else changes |
| Dashboard.DashboardView.OpenCard | src/pages/Dashboard.jsx:121 | clicking card `k` navigates to the detail page of feedback `k` |
| Dashboard.DashboardView.SubmitFeedback | src/pages/Dashboard.jsx:72 | navigates to the submission form; nothing else changes |
| Routes.GuardOf | src/App.jsx:39-78 | only the landing page is public |
| Routes.MatchRoute | src/App.jsx:39-79 | a matched path is the path of its page under that page's guard, and a detail id is one non-empty segment; anything else falls to the catch-all |
| Routes.MatchPathOf | src/App.jsx:39-78 | every page's own path matches it, under its own guard |
| Routes.ProtectedRoute | src/App.jsx:12-20 | loading while the state loads; then the page exactly for a signed-in user, the landing page otherwise |
| Routes.PublicRoute | src/App.jsx:23-31 | loading while the state loads; then the page exactly for a signed-out visitor, the dashboard otherwise |
| Routes.GuardsComplementary | src/App.jsx:12-31 | once loaded, exactly one of the two guards shows its page |
| Routes.WhereVisitorsLand | src/App.jsx:12-79 | within two redirects, a signed-out visitor reaches the landing page from any path, and a signed-in user reaches the protected page asked for or the dashboard |
| Routes.LandingOnlySignedOut | src/App.jsx:39-46 | the landing page is reached exactly by signed-out visitors |
| Routes.LoadingWaits | src/App.jsx:15-16 | every declared route shows the loading screen while the state loads |
| Routes.AdminPanelAccess | src/App.jsx:71-78 | the admin panel's content shows exactly to a signed-in user with role `admin` at `/admin` |
| Routes.CardOpensDetail | src/App.jsx:63-70 | a signed-in user who follows a dashboard card reaches that feedback's detail page |

## Left out

- The backend helpers in src/firebase/firebaseHelpers.js are stubs, and their old implementation is commented out. Every call is a parameter that says how it settles.
- The authentication context in src/context/AuthContext.jsx currently fixes a null user, the role `user` and `loading` false. The routing lemmas take any authentication state instead. The provider's own `{!loading && children}` wrapper is not modelled.
- The header and error message components and all styling are not part of this model.
- `toISOString` is abstract. A date is either valid, with its ISO text as a value, or invalid, which `formatDate` catches. A timestamp is a Firestore timestamp, a `Date`, falsy, or anything else.
- `toLocaleDateString` on the pages is abstract: the label is `Just now` or the timestamp itself. The `Recently` fallback needs `toDate()` or the `Date` conversion to throw, and the modelled timestamps do neither.
- `exportToCSV`'s download is left out: `encodeURI`, the link element, the click, and the file name with the current date. `Admin.AdminPanel.Download` records the content handed over.
- `window.confirm` is a boolean parameter.
- React scheduling is not modelled: effects, batching of state updates, re-renders, and a state update after unmount. Each handler runs to completion on the state it starts from, and the awaited call settles as its parameter says.
- `console.error` is not modelled.
- `SubmitFeedback.SubmitFeedbackForm.Submit`: without a user, the thrown `TypeError` is modelled as the failure path with no backend call.
- `FeedbackDetail.FeedbackDetailView.AddComment`: without a user, the thrown `TypeError` is modelled as the failure path with no backend call.
- The router's case-insensitive matching, trailing slashes, the `/SessionFeedbackApp` base name and URL decoding of `:id` are left out. Paths are matched exactly.
- The textarea `maxLength` limit enforced by the browser is left out. The validation checks alone bound the lengths.
- Lengths count characters, while JavaScript counts UTF-16 code units.
- `Text.ToUpperAscii`: upper-cases ASCII letters only, not the full Unicode case mapping of `toUpperCase`.
- `Text.IsJsWhitespace` is a fixed list of ECMAScript white space and line terminators. It does not follow later changes to the Unicode `Zs` category.
- Ratings and like counts are integers. Other JavaScript values (strings, `NaN`, fractions) are left out.
- Text.IntToDecimal: always plain decimal digits. JavaScript's `String` switches to exponent form from 10^21 in magnitude (`1e+21`), and numbers past 2^53 are not exact integers; neither range is modelled.
- The exported text is a CSV dialect, not RFC 4180: records end with a line feed where RFC 4180 asks for CRLF, and a value holding a bare carriage return is written unquoted (`EscapeCsv(Some("a\rb"))` is `a\rb`), which RFC 4180 does not allow.
- The browser receives `encodeURI` of the content, which leaves `#` unescaped, so a `#` in any cell starts a URI fragment and cuts the downloaded data short. The model stops at the content handed to `encodeURI`.
- `CsvExport.HeaderLine` is built by joining the twelve titles with commas, rather than written out as one literal. The text is the same.
- `CsvRead.ExportReadsBack`: ids and ISO dates are written without escaping, so the read-back holds only when they contain no comma, quote or line feed.
- The dashboard's `error` state is never set by its code, so it is left out.
