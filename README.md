# Pwig template editor: a Dafny model of its decision and state logic

Pwig is a browser editor for Twig templates with a live HTML preview and PDF
export. The front end holds a template editor and a JSON variables editor. It
re-renders the preview 500 ms after the last keystroke, loads named templates
from the server, exports the current document as a PDF, and reports outcomes
in toast notifications. The back end lists and serves template files, renders
a template with its variables, and prints the result to PDF in a headless
browser.

The project models four pieces of that system, one module each. A shared
module holds string helpers.

- `Scheduler` and `App` (`scheduler.dfy`, `app.dfy`) cover the editor session
  of `App.ts`.
  - `App.AppSession` is a class with the fields the session updates: the
    in-flight render flag, the debounce deadline, the unsaved flag, the
    recorded selection, the selector value, the export button state, and
    the requests in flight.
  - Asynchronous work is split in two. One method starts the request and
    another handles the moment it settles (`RenderSettles`, `LoadSettles`,
    `ExportSettles`).
  - The debounce timer runs on a logical clock that the event loop advances
    with `Tick`.
  - `Edit`, `RenderPreview`, `Tick` and `RenderSettles` change the timer and
    the in-flight flag, and each is proved to move those two fields exactly as
    the matching pure transition function of `Scheduler` does. The other
    methods state their effect on the session's fields directly.
    `Scheduler.Run` folds the transition functions over event traces, and the
    debounce and single-flight properties are proved as trace lemmas.
- `Server` (`server.dfy`) covers the four API routes and the error handler of
  `server.ts` as pure functions.
  - Each route returns the calls it makes on its collaborators (file reads,
    renderer, exporter) in order, plus the response or the error it throws.
  - `JSON.parse`, the renderer, the exporter, the file system and the status
    code of each error class are function parameters.
- `PdfExport` (`pdf_exporter.dfy`) covers `PdfExporter.export`.
  - The browser library is modelled as a class, `Engine`. It logs every call
    made on it, and its `behaviour` field decides which calls fail.
  - `Export` follows the try/finally of the source step by step. It is proved
    to produce exactly the log `ExportEffects` and the result `ExportResult`.
    Lemmas about those functions prove that the browser is released exactly
    once and that the steps run in order.
- `Toast` (`toast.dfy`) covers the toast manager of `Toast.ts`.
  - `ToastManager` is a class with these fields: the registry (a map plus
    its iteration order), the container's children, the position, a logical
    clock, and the set of pending timers.
  - Dismissal has two phases: a removal timer is set, and when it fires the
    entry is deleted.
  - `Fire` runs one timer, chosen as the earliest due. Among timers due at
    the same time, the one set first runs first.

The validation errors of the two POST routes are thrown inside the same `try`
whose `catch` throws the route's generic internal error. The model follows the
code: a missing template and invalid variables JSON reach the client as
"Unable to render template" or "Unable to export PDF", not as a validation
error. `Server.RenderValidationIsMasked` and `Server.ExportValidationIsMasked`
state this.

Two limits of the platform are modelled because they change outcomes:

- Node refuses a header value containing a character other than tab,
  printable ASCII or 0x80-0xFF. The export route sets the attachment header
  inside its `try`, after the PDF has been made. A supplied file name with a
  newline, or with characters beyond Latin-1, therefore ends in "Unable to
  export PDF" after both the render and the export have run.
- `setTimeout` reads its delay as a 32-bit signed integer, and a negative
  delay is zero. A toast duration of 2^31 ms or more is therefore shortened:
  it wraps modulo 2^32, or the toast is dismissed at once.

## Model

| member | source | states |
|---|---|---|
| Common.Take | apps/frontend/src/App.ts:218 | `slice(0, n)`: the first `n` characters, or the whole string when it is shorter |
| Common.ReplaceAll | apps/frontend/src/App.ts:219 | every occurrence of the character is replaced and nothing else changes; the length is kept |
| Common.Decimal | apps/backend/src/server.ts:155 | the millisecond count as decimal text: non-empty, made only of digits, and without a leading zero; it is "0" exactly for zero |
| Common.DecimalRoundTrip | apps/backend/src/server.ts:155 | the decimal text of a millisecond count reads back as that count |
| Common.DecimalInjective | apps/backend/src/server.ts:155 | different counts have different decimal texts |
| Scheduler.Schedule | apps/frontend/src/App.ts:241-248 | an edit leaves exactly one timer, due 500 after it, and does not touch the in-flight flag |
| Scheduler.AttemptOf | apps/frontend/src/App.ts:164-175 | a render starts exactly when none is in flight and the preview container exists; it is dropped exactly when one is in flight |
| Scheduler.AfterAttempt | apps/frontend/src/App.ts:164-175 | an attempt leaves the timer alone and sets the in-flight flag exactly when it starts a render |
| Scheduler.AfterTick | apps/frontend/src/App.ts:245-247 | the loop changes nothing until the timer is due; a due timer is consumed, and the flag is then raised exactly when it was already up or the container is present |
| Scheduler.AfterSettle | apps/frontend/src/App.ts:192-194 | a settled render always lowers the flag and leaves the timer alone |
| Scheduler.Step | apps/frontend/src/App.ts:164-175 | only a tick fires the timer, at most once, exactly when it is due, at its due time; the firing is dropped exactly when a render is in flight; an edit sets the deadline |
| Scheduler.Run | apps/frontend/src/App.ts:241-248 | a trace fires at most once per event |
| Scheduler.LastEditSetsDeadline | apps/frontend/src/App.ts:241-248 | after any trace ending in an edit, exactly one timer is pending, due 500 after that edit; the edit fires nothing |
| Scheduler.BurstIsQuiet | apps/frontend/src/App.ts:241-248 | edits less than 500 apart, each preceded by a tick at its own time, fire nothing and leave one timer due 500 after the last edit |
| Scheduler.BurstFiresOnce | apps/frontend/src/App.ts:241-248 | such a burst followed by a tick 500 after the last edit fires exactly once, at that time, and leaves no timer pending |
| Scheduler.SlowEditsFireTwice | apps/frontend/src/App.ts:164-167 | two edits 500 apart fire twice; the second firing is dropped because the first render has not settled |
| Scheduler.NoEditsFireAtMostOnce | apps/frontend/src/App.ts:241-248 | without edits a trace fires at most once, and not at all when no timer is pending: dropped requests are not queued |
| Scheduler.FireWhileRendering | apps/frontend/src/App.ts:165-167 | a due timer that fires during a render is consumed and starts nothing |
| Scheduler.SettleThenEditStarts | apps/frontend/src/App.ts:192-194 | once a render settles, the next debounced edit starts a new render |
| Scheduler.MissingContainerKeepsIdle | apps/frontend/src/App.ts:169-173 | without the preview container the flag is never set |
| App.ErrorMessage | apps/frontend/src/App.ts:121-126 | an API error shows its own message; any other error shows "Unknown error" |
| App.RequestVariables | apps/frontend/src/App.ts:179 | an empty variables editor sends `{}`; any other text is sent unchanged |
| App.ExportFilename | apps/frontend/src/App.ts:216-220 | the name is "document-", then the first 19 characters of the timestamp with ':' turned into '-', then ".pdf"; it contains no ':' |
| App.AppSession.constructor | apps/frontend/src/App.ts:18-29 | the editors hold their defaults, nothing is unsaved or pending, and the first render is requested at once |
| App.AppSession.Edit | apps/frontend/src/App.ts:35-47 | a change in either editor replaces the debounce timer with one due 500 later, even one that is already due but has not run, and sets the unsaved flag |
| App.AppSession.ScheduleRender | apps/frontend/src/App.ts:241-248 | the pending timer is replaced by one due 500 after the current time |
| App.AppSession.RenderPreview | apps/frontend/src/App.ts:164-182 | follows `Scheduler.AttemptOf`: dropped while rendering, a notice without the container, otherwise a request with the editors' texts |
| App.AppSession.Tick | apps/frontend/src/App.ts:164-182 | the session moves exactly as `Scheduler.Step` does for a tick; a firing that starts a render sends the editors' texts, with `{}` for empty variables; a firing without the container adds the missing-preview notice; no timer is overdue afterwards |
| App.AppSession.RenderSettles | apps/frontend/src/App.ts:181-194 | the flag drops on success and on failure; success shows the html, failure adds the error's notice |
| App.AppSession.LoadTemplates | apps/frontend/src/App.ts:103-128 | without the selector only a notice is added; otherwise each fetched name becomes an option, or the error's notice is added |
| App.AppSession.SelectTemplate | apps/frontend/src/App.ts:301-317 | a load starts exactly when nothing is unsaved or the user confirms; a declined choice resets the selector to the recorded selection |
| App.AppSession.LoadSettles | apps/frontend/src/App.ts:130-162 | success fills both editors, records the selection and clears the unsaved flag; failure keeps the recorded selection, resets the selector to it and adds the error's notice |
| App.AppSession.ApplyTemplate | apps/frontend/src/App.ts:132-144 | both editors receive the fetched texts, each change resetting the debounce timer, then the selection is recorded and the unsaved flag cleared |
| App.AppSession.ClickExport | apps/frontend/src/App.ts:197-222 | the button is disabled and the request carries the editors' texts and the timestamped name; without the button only a notice is added |
| App.AppSession.ExportSettles | apps/frontend/src/App.ts:222-238 | the button is enabled again on every path; success adds the success notice with the file name, failure the error's notice |
| Server.ErrorHandler | apps/backend/src/server.ts:29-41 | an application error gets its own status and message; anything else gets 500 and "An internal server error occurred" |
| Server.TwigFiles | apps/backend/src/server.ts:58 | the result holds exactly the names ending in ".twig" and is no longer than the listing |
| Server.TwigFilesAppend | apps/backend/src/server.ts:58 | filtering commutes with concatenation, so kept names keep their directory order |
| Server.TwigFilesCount | apps/backend/src/server.ts:58 | each ".twig" name is kept as often as it occurs and every other name is dropped |
| Server.TwigFilesIdempotent | apps/backend/src/server.ts:58 | filtering the result again changes nothing |
| Server.StrArray | apps/backend/src/server.ts:59 | the JSON array holds the names in order |
| Server.ListTemplates | apps/backend/src/server.ts:52-66 | one directory read; success is the filtered listing and an unreadable directory is "Unable to read templates" |
| Server.ReadFailure | apps/backend/src/server.ts:88-92 | the error is "not found" exactly for ENOENT, with the template's name in the message; every other code is the internal "Unable to read template" |
| Server.GetTemplate | apps/backend/src/server.ts:69-95 | exactly one read of the template, followed by one read of its ".json" only when the first read succeeds; success returns both texts; ENOENT on either read is "Template '<filename>' not found" and any other failure is "Unable to read template" |
| Server.NormalizeVariables | apps/backend/src/server.ts:108-116 | a falsy value gives `{}`, a string gives its parse, a parse failure gives "Invalid JSON in variables", anything else is kept |
| Server.RenderSteps | apps/backend/src/server.ts:101-121 | one render call, with the normalised variables, exactly when the template is truthy and the variables normalise, and none otherwise; the html is the renderer's; the renderer's failure is reported as such only when validation passed |
| Server.ValidationPrecedesRender | apps/backend/src/server.ts:104-116 | a falsy template or unparseable variables stop with a validation error before any render call; no call is made exactly when validation fails |
| Server.RenderRoute | apps/backend/src/server.ts:98-128 | succeeds exactly when the template is truthy, the variables normalise and the renderer returns html, and responds with that html; the render call is made exactly when validation passes; every failure is "Unable to render template" |
| Server.RenderValidationIsMasked | apps/backend/src/server.ts:124-126 | a request without a template renders nothing and reaches the client as the internal error's status with "Unable to render template" |
| Server.PdfFilename | apps/backend/src/server.ts:155 | a non-empty supplied name is used; otherwise the name is `template-<millis>.pdf` |
| Server.DefaultNamesDiffer | apps/backend/src/server.ts:155 | default names taken at different milliseconds differ |
| Server.HeadersSafeIffName | apps/backend/src/server.ts:162-163 | both response headers are accepted exactly when the file name is |
| Server.DefaultNameIsSafe | apps/backend/src/server.ts:155 | a default `template-<millis>.pdf` name is always accepted as a header value |
| Server.ExportRoute | apps/backend/src/server.ts:131-172 | no call when validation fails, one render call when it passes, and one export call with the rendered html only after a completed render; success requires a header-safe file name and streams exactly the exporter's bytes with the attachment and content-type headers; every failure, an unsafe name after the export included, is "Unable to export PDF" |
| Server.ExportValidationIsMasked | apps/backend/src/server.ts:141-149 | invalid variables JSON renders and exports nothing and reaches the client as "Unable to export PDF" |
| Server.NewlineNameFailsAfterExport | apps/backend/src/server.ts:156-169 | a supplied name "a\nb.pdf" fails the route with "Unable to export PDF" after both the render and the export calls |
| PdfExport.MergeOptions | apps/backend/src/pdfExporter/PdfExporter.ts:13-17 | every caller key overrides the default; default keys the caller omits keep "A4" and `printBackground: true` |
| PdfExport.DefaultsWhenNoOptions | apps/backend/src/pdfExporter/PdfExporter.ts:4 | with the default empty options the capture uses exactly A4 and printed backgrounds |
| PdfExport.ExportEffects | apps/backend/src/pdfExporter/PdfExporter.ts:4-24 | the headless launch comes first; a failed launch is the only call; otherwise a new page follows, the close is last, and the capture with the merged options is made when the page and content succeed |
| PdfExport.ExportResult | apps/backend/src/pdfExporter/PdfExporter.ts:4-24 | bytes are returned only when they are the capture's and the close succeeded; a failing close replaces any outcome of a successful launch; a failed new page is reported when the close succeeds |
| PdfExport.CloseExactlyOnce | apps/backend/src/pdfExporter/PdfExporter.ts:10-22 | a launched browser is closed exactly once, as the last call, whichever step fails; a failed launch closes nothing |
| PdfExport.StepOrder | apps/backend/src/pdfExporter/PdfExporter.ts:5-17 | launch is first and is headless with the two sandbox flags; then new page, content load with "networkidle0", and capture with the merged options, stopping at the first failure; every call goes to the one browser |
| PdfExport.ResultIsCapture | apps/backend/src/pdfExporter/PdfExporter.ts:19-22 | the result is the captured bytes exactly when every step and the close succeed; a launch failure propagates |
| PdfExport.Engine.LaunchBrowser | apps/backend/src/pdfExporter/PdfExporter.ts:5-8 | the launch is logged; on success it yields a browser never launched before |
| PdfExport.Export | apps/backend/src/pdfExporter/PdfExporter.ts:4-24 | the calls made are exactly `ExportEffects` on a fresh browser and the result is exactly `ExportResult` |
| Toast.SlideOffset | apps/frontend/src/utils/Toast.ts:122-128 | the offset is one of 100%, -100% and 0, and is 100% exactly when the position's name mentions "right" |
| Toast.SlideOffsets | apps/frontend/src/utils/Toast.ts:122-128 | the substring tests give 100% for the right-hand positions, -100% for the left-hand ones and 0 for the centred ones |
| Toast.BottomPositions | apps/frontend/src/utils/Toast.ts:276 | "bottom" matches exactly the three bottom positions |
| Toast.Duration | apps/frontend/src/utils/Toast.ts:267 | a non-zero duration is kept; an absent or zero one becomes 5000 for an error and 3000 otherwise; the result is never zero |
| Toast.Resolve | apps/frontend/src/utils/Toast.ts:263-270 | the type defaults to info, the toast is dismissible unless that is explicitly false, and the duration follows `Duration` |
| Toast.ResolveIgnoresPosition | apps/frontend/src/utils/Toast.ts:261-270 | the position in the options has no effect on the toast |
| Toast.LoadingOptions | apps/frontend/src/utils/Toast.ts:352 | the loading helper forces the type to loading and the duration to zero, and passes the caller's other options on |
| Toast.LoadingNeverAutoDismisses | apps/frontend/src/utils/Toast.ts:351-352 | a loading toast never sets an auto-dismiss timer, and its recorded duration is 3000 |
| Toast.OthersAutoDismiss | apps/frontend/src/utils/Toast.ts:284-288 | any other toast sets one unless its duration is negative |
| Toast.TimerDelay | apps/frontend/src/utils/Toast.ts:285-287 | the delay actually waited is the requested duration modulo 2^32 whenever that remainder is below 2^31, and zero when it is not, so it is always below 2^31 and equals the duration inside that range |
| Toast.TimerDelayWraps | apps/frontend/src/utils/Toast.ts:285-287 | 2^32 + 1000 ms waits 1000 ms, 2^31 ms fires at once, and the 3000 and 5000 defaults are kept |
| Toast.TimerDelayPeriodic | apps/frontend/src/utils/Toast.ts:285-287 | durations 2^32 ms apart wait exactly as long |
| Toast.Without | apps/frontend/src/utils/Toast.ts:308-311 | taking an element out keeps exactly the other elements and keeps them distinct |
| Toast.WithoutAppend | apps/frontend/src/utils/Toast.ts:308-311 | taking an entry out of a concatenation takes it out of each part, so the remaining entries keep their order |
| Toast.Removals | apps/frontend/src/utils/Toast.ts:315-319 | one removal per registered id, in registry order |
| Toast.ToastManager.constructor | apps/frontend/src/utils/Toast.ts:30-37 | an empty registry and container at the top right |
| Toast.ToastManager.SetPosition | apps/frontend/src/utils/Toast.ts:96-99 | an absent position becomes top-right |
| Toast.ToastManager.Show | apps/frontend/src/utils/Toast.ts:261-291 | the toast is registered under the returned id and every other entry is unchanged; the new element goes first at bottom positions and last otherwise; an auto-dismiss timer is set exactly when the duration is positive and the type is not loading, due after the 32-bit `TimerDelay` of the duration |
| Toast.ToastManager.Register | apps/frontend/src/utils/Toast.ts:273 | a new key goes last in the registry's iteration order and a known key keeps its place |
| Toast.ToastManager.Place | apps/frontend/src/utils/Toast.ts:275-281 | the new element is put first at bottom positions and last otherwise |
| Toast.ToastManager.Dismiss | apps/frontend/src/utils/Toast.ts:293-313 | an unknown id changes nothing; a known one gets a removal timer due 300 later |
| Toast.ToastManager.DismissAll | apps/frontend/src/utils/Toast.ts:315-319 | every registered toast gets its removal timer, in registry order |
| Toast.ToastManager.Update | apps/frontend/src/utils/Toast.ts:321-331 | an unknown id changes nothing; otherwise the old toast gets its removal timer, then the new toast is shown exactly as `Show` would (registry, order, new element and its place, auto-dismiss timer) and keeps the old type unless the options give one |
| Toast.ToastManager.AdvanceClock | apps/frontend/src/utils/Toast.ts:285-287 | time passes without passing any pending timer |
| Toast.ToastManager.Fire | apps/frontend/src/utils/Toast.ts:285-312 | an auto-dismiss timer dismisses its toast if it is still registered; a removal deletes only its id from the registry and only its element from the container |
| Toast.ToastManager.Delete | apps/frontend/src/utils/Toast.ts:307-312 | the element leaves the container if it is there and the id leaves the registry |
| Toast.ToastManager.ShowTyped | apps/frontend/src/utils/Toast.ts:338-349 | `show` with the type forced to the helper's type: the same registry entry, order, element placement and timer as `Show` |
| Toast.ToastManager.ShowLoading | apps/frontend/src/utils/Toast.ts:351-352 | a loading toast is registered, placed and ordered as `Show` does, and no timer is set |
| Toast.ToastManager.ShowToast | apps/frontend/src/utils/Toast.ts:365-382 | the position becomes bottom-right first, so the new element goes on top of the stack; the toast is registered and ordered as `Show` does and dismisses itself after 3000, or 5000 for an error |
| Toast.TypeOf | apps/frontend/src/utils/Toast.ts:371-381 | `showToast` gives only success, error or info toasts, and an error toast exactly for the error kind |

## Left out

- The Twig renderer (`twigRenderer/TwigRenderer.ts`) is a single call into the `twig` library. It is the `render` parameter of the routes, a partial function from template and variables to html.
- Puppeteer is left out. It is the `Engine` class: it records calls, and each call's success is given.
- `JSON.parse` is the `parse` parameter. The status codes of the error classes (`errors/AppError.ts` is not part of this model) are the `statusOf` parameter.
- Express, CORS, dotenv and the stream piping are plumbing and are not modelled. The root endpoint "/" only returns a static description and is not modelled.
- The API client (`api/Api.ts`) is HTTP I/O. Its results are the settled values handed to `LoadTemplates`, `LoadSettles`, `RenderSettles` and `ExportSettles`. Its sort of the template list and its error-path body read are not modelled.
- The Monaco editor wrappers are modelled only as text sources. A change raises `Edit`. A `setValue` in `LoadSettles` is assumed to raise the change event, as Monaco's content-change event does.
- `window.setUnsavedChanges` and `window.hasUnsavedChanges` are defined outside these files. They are the `unsaved` field, assumed present.
- DOM, CSS and animation are UI. This covers iframe rendering, blob download, split panes, toast styling, icons, slide animations (`SlideOffset` is proved but not stored), and the export button's label and cursor.
- The missing-elements notice of `setupEventListeners` is not modelled. A click on a disabled export button is excluded by the `ClickExport` precondition, because the browser delivers no such click.
- Real timers, `Date`, `Math.random` and async interleaving are left out:
  - Time is a logical clock.
  - Timestamps are parameters: the ISO string, and the millisecond count of the default PDF name.
  - Toast ids come from the caller.
  - No operation's effects interleave with another's.
- Toast ids are not assumed unique, since the source does not make them so.
- `App.AppSession.LoadTemplates`: the option labels, which drop ".twig", are display text and are not modelled.
- `Server.ExportRoute`: a supplied `filename` that is a truthy non-string JSON value is not modelled. `filename` is an optional string.
- `Server.NormalizeVariables`: JavaScript `NaN` is left out of the JSON values, so `Truthy` is exact for the values modelled.
- `Toast.Duration`: `NaN` durations are left out. Durations are integers.
- `Toast.ToastManager.Show`: the action button's click callback is not modelled. Only its label is kept.
- Path normalisation of `/api/templates/:filename` is left to the file-system parameter.
