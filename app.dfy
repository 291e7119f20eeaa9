/**
 * The editor session of the front end (class App): it reacts to changes in the
 * template and variables editors, schedules the debounced preview render,
 * guards it with the in-flight flag, tracks unsaved changes and the template
 * selection, and drives the PDF export button.
 *
 * Asynchronous work is split into the call that starts it and a separate
 * method for the moment its awaited request settles; timers are replaced by a
 * logical clock that the event loop advances with Tick.
 */
module App {
  import opened Common
  import Scheduler

  const UnknownErrorMessage := "Unknown error"
  const PreviewMissingMessage := "Preview container not found. Please refresh the page."
  const SelectorMissingMessage := "Template selector not found. Please refresh the page."
  const ExportButtonMissingMessage := "Export button not found. Please refresh the page."
  const ExportSuccessPrefix := "PDF exported successfully: "

  /** What a failed request throws: the API client's own error, or anything else
      (a network failure, a body that is not JSON, ...). */
  datatype ClientError = ApiError(message: string) | OtherError

  /** The message every catch block of the session shows. */
  function ErrorMessage(e: ClientError): (m: string)
    ensures e.ApiError? ==> m == e.message
    ensures !e.ApiError? ==> m == UnknownErrorMessage
  {
    match e
    case ApiError(msg) => msg
    case OtherError => UnknownErrorMessage
  }

  /** A user notification the session asks for (`showToast(message, type)`). */
  datatype NoticeKind = InfoNotice | SuccessNotice | ErrorNotice
  datatype Notice = Notice(message: string, kind: NoticeKind)

  datatype Editor = TemplateEditor | VariablesEditor

  /** The bodies the session sends to the render and export endpoints. */
  datatype RenderRequest = RenderRequest(template: string, variables: string)
  datatype ExportRequest = ExportRequest(template: string, variables: string, filename: string)

  /** What fetching a template returns. */
  datatype TemplateData = TemplateData(content: string, variables: string)

  /** `jsonEditor.getValue() || "{}"`: an empty variables editor sends `{}`. */
  function RequestVariables(text: string): (v: string)
    ensures v != ""
    ensures text == "" ==> v == "{}"
    ensures text != "" ==> v == text
  {
    if text == "" then "{}" else text
  }

  /** The download name built from an ISO-8601 timestamp: the first 19
      characters (date and time to the second) with every ':' made a '-'. */
  function ExportFilename(iso: string): (name: string)
    ensures StartsWith(name, "document-") && EndsWith(name, ".pdf")
    ensures |name| == |"document-"| + (if |iso| < 19 then |iso| else 19) + |".pdf"|
    ensures forall i :: 0 <= i < |name| - 13 ==> name[9 + i] == (if iso[i] == ':' then '-' else iso[i])
    ensures forall i :: 0 <= i < |name| ==> name[i] != ':'
  {
    var stamp := ReplaceAll(Take(iso, 19), ':', '-');
    assert forall i :: 0 <= i < |stamp| ==> stamp[i] != ':';
    var name := "document-" + stamp + ".pdf";
    assert name[..9] == "document-";
    assert name[|name| - 4..] == ".pdf";
    name
  }

  class AppSession {
    /** The logical clock: time of the latest event the session saw. */
    var clock: nat
    var isRendering: bool
    /** Due time of the debounce timer (`renderTimeout`), if one is pending. */
    var pendingDeadline: Option<nat>
    /** The page-wide unsaved-changes flag. */
    var unsaved: bool
    var previousSelection: string
    /** The value the template selector shows. */
    var selectorValue: string
    /** The export button is disabled. */
    var exportBusy: bool
    var templateText: string
    var variablesText: string
    /** The options added to the template selector. */
    var templateOptions: seq<string>
    /** Templates whose fetch was started and has not settled yet. */
    var loadsInFlight: multiset<string>
    var renderInFlight: Option<RenderRequest>
    var exportInFlight: Option<ExportRequest>
    /** The html last written into the preview. */
    var previewHtml: Option<string>
    var notices: seq<Notice>

    ghost predicate Valid()
      reads this
    {
      && (isRendering <==> renderInFlight.Some?)
      && (exportBusy <==> exportInFlight.Some?)
    }

    /** The scheduler's view of the session. */
    function Sched(): Scheduler.State
      reads this
    {
      Scheduler.State(pendingDeadline, isRendering)
    }

    /** The event loop has run every timer that was due by `now`. */
    predicate NoTimerDue(now: nat)
      reads this
    {
      pendingDeadline.None? || now < pendingDeadline.value
    }

    /** Construction: the editors start with their default contents and the
        first preview render is requested at once. */
    constructor (twigDefault: string, jsonDefault: string, containerPresent: bool)
      ensures Valid()
      ensures templateText == twigDefault && variablesText == jsonDefault
      ensures !unsaved && pendingDeadline.None? && clock == 0
      ensures previousSelection == "" && selectorValue == "" && templateOptions == []
      ensures !exportBusy && loadsInFlight == multiset{} && previewHtml.None?
      ensures isRendering == containerPresent
      ensures containerPresent ==> renderInFlight == Some(RenderRequest(twigDefault, RequestVariables(jsonDefault))) && notices == []
      ensures !containerPresent ==> notices == [Notice(PreviewMissingMessage, InfoNotice)]
    {
      clock := 0;
      isRendering := false;
      pendingDeadline := None;
      unsaved := false;
      previousSelection := "";
      selectorValue := "";
      exportBusy := false;
      templateText := twigDefault;
      variablesText := jsonDefault;
      templateOptions := [];
      loadsInFlight := multiset{};
      renderInFlight := None;
      exportInFlight := None;
      previewHtml := None;
      notices := [];
      new;
      var _ := RenderPreview(containerPresent);
    }

    /** A change in either editor: the text changes, the debounce timer is
        replaced and the page is marked as having unsaved changes. A timer
        that is already due but has not run yet is cancelled as well, as
        `clearTimeout` does. */
    method Edit(now: nat, editor: Editor, text: string)
      requires Valid() && clock <= now
      modifies this`clock, this`pendingDeadline, this`unsaved, this`templateText, this`variablesText
      ensures Valid()
      ensures Sched() == Scheduler.Schedule(old(Sched()), now)
      ensures pendingDeadline == Some(now + Scheduler.DebounceMs) && clock == now
      ensures unsaved
      ensures templateText == (if editor == TemplateEditor then text else old(templateText))
      ensures variablesText == (if editor == VariablesEditor then text else old(variablesText))
    {
      clock := now;
      if editor == TemplateEditor {
        templateText := text;
      } else {
        variablesText := text;
      }
      ScheduleRender();
      unsaved := true;
    }

    /** Clears the pending timer, if any, and sets a new one. */
    method ScheduleRender()
      requires Valid()
      modifies this`pendingDeadline
      ensures Valid()
      ensures pendingDeadline == Some(clock + Scheduler.DebounceMs)
    {
      pendingDeadline := Some(clock + Scheduler.DebounceMs);
    }

    /** The preview render entry point: dropped while a render is in flight,
        refused without the preview container, otherwise sends the request. */
    method RenderPreview(containerPresent: bool) returns (a: Scheduler.Attempt)
      requires Valid()
      modifies this`isRendering, this`renderInFlight, this`notices
      ensures Valid()
      ensures a == Scheduler.AttemptOf(old(Sched()), containerPresent)
      ensures Sched() == Scheduler.AfterAttempt(old(Sched()), containerPresent)
      ensures a == Scheduler.Started ==> renderInFlight == Some(RenderRequest(templateText, RequestVariables(variablesText)))
      ensures a != Scheduler.Started ==> renderInFlight == old(renderInFlight)
      ensures notices == old(notices) + (if a == Scheduler.NoContainer then [Notice(PreviewMissingMessage, InfoNotice)] else [])
    {
      if isRendering {
        return Scheduler.Dropped;
      }
      if !containerPresent {
        notices := notices + [Notice(PreviewMissingMessage, InfoNotice)];
        return Scheduler.NoContainer;
      }
      isRendering := true;
      renderInFlight := Some(RenderRequest(templateText, RequestVariables(variablesText)));
      a := Scheduler.Started;
    }

    /** The event loop reaches time `now`; a due debounce timer fires and calls
        the render entry point. */
    method Tick(now: nat, containerPresent: bool) returns (fired: seq<Scheduler.Fired>)
      requires Valid() && clock <= now
      modifies this`clock, this`pendingDeadline, this`isRendering, this`renderInFlight, this`notices
      ensures Valid() && clock == now
      ensures (Sched(), fired) == Scheduler.Step(old(Sched()), Scheduler.Tick(now, containerPresent))
      ensures NoTimerDue(now)
      ensures |fired| == 0 ==> renderInFlight == old(renderInFlight) && notices == old(notices)
      ensures |fired| == 1 ==>
                && renderInFlight == (if fired[0].attempt == Scheduler.Started
                                      then Some(RenderRequest(templateText, RequestVariables(variablesText)))
                                      else old(renderInFlight))
                && notices == old(notices) + (if fired[0].attempt == Scheduler.NoContainer
                                              then [Notice(PreviewMissingMessage, InfoNotice)] else [])
    {
      fired := [];
      if pendingDeadline.Some? && pendingDeadline.value <= now {
        var at := pendingDeadline.value;
        pendingDeadline := None;
        clock := now;
        var a := RenderPreview(containerPresent);
        fired := [Scheduler.Fired(at, a)];
      } else {
        clock := now;
      }
    }

    /** The render request settles; the flag drops on success and on failure. */
    method RenderSettles(result: Result<string, ClientError>)
      requires Valid() && isRendering
      modifies this`isRendering, this`renderInFlight, this`previewHtml, this`notices
      ensures Valid()
      ensures Sched() == Scheduler.AfterSettle(old(Sched()))
      ensures !isRendering && renderInFlight.None?
      ensures result.Ok? ==> previewHtml == Some(result.value) && notices == old(notices)
      ensures result.Err? ==> previewHtml == old(previewHtml)
                              && notices == old(notices) + [Notice(ErrorMessage(result.error), ErrorNotice)]
    {
      if result.Ok? {
        previewHtml := Some(result.value);
      } else {
        notices := notices + [Notice(ErrorMessage(result.error), ErrorNotice)];
      }
      isRendering := false;
      renderInFlight := None;
    }

    /** The template list arrives: each name becomes a selector option. */
    method LoadTemplates(selectorPresent: bool, result: Result<seq<string>, ClientError>)
      requires Valid()
      modifies this`templateOptions, this`notices
      ensures Valid()
      ensures !selectorPresent ==> templateOptions == old(templateOptions)
                                   && notices == old(notices) + [Notice(SelectorMissingMessage, InfoNotice)]
      ensures selectorPresent && result.Ok? ==> templateOptions == old(templateOptions) + result.value
                                                && notices == old(notices)
      ensures selectorPresent && result.Err? ==> templateOptions == old(templateOptions)
                                                 && notices == old(notices) + [Notice(ErrorMessage(result.error), ErrorNotice)]
    {
      if !selectorPresent {
        notices := notices + [Notice(SelectorMissingMessage, InfoNotice)];
        return;
      }
      if result.Ok? {
        templateOptions := templateOptions + result.value;
      } else {
        notices := notices + [Notice(ErrorMessage(result.error), ErrorNotice)];
      }
    }

    /** The user picks `selected` in the template selector. With unsaved
        changes the user is asked first (`userConfirms` is the answer); a
        declined choice resets the selector and starts nothing. */
    method SelectTemplate(selected: string, userConfirms: bool) returns (started: bool)
      requires Valid()
      modifies this`selectorValue, this`loadsInFlight
      ensures Valid()
      ensures started <==> !unsaved || userConfirms
      ensures started ==> selectorValue == selected && loadsInFlight == old(loadsInFlight) + multiset{selected}
      ensures !started ==> selectorValue == previousSelection && loadsInFlight == old(loadsInFlight)
    {
      selectorValue := selected;
      if unsaved && !userConfirms {
        selectorValue := previousSelection;
        return false;
      }
      loadsInFlight := loadsInFlight + multiset{selected};
      started := true;
    }

    /** The fetch of `filename` settles at time `now`. On success both editors
        receive the fetched text (each raising its change notification), the
        selection is recorded and the page is clean again; on failure the
        selector goes back to the recorded selection. */
    method LoadSettles(filename: string, result: Result<TemplateData, ClientError>, now: nat)
      requires Valid() && filename in loadsInFlight && clock <= now
      modifies this`loadsInFlight, this`clock, this`pendingDeadline, this`unsaved, this`templateText,
               this`variablesText, this`previousSelection, this`selectorValue, this`notices
      ensures Valid() && clock == now
      ensures loadsInFlight == old(loadsInFlight) - multiset{filename}
      ensures result.Ok? ==>
        && templateText == result.value.content && variablesText == result.value.variables
        && previousSelection == filename && !unsaved
        && pendingDeadline == Some(now + Scheduler.DebounceMs)
        && selectorValue == old(selectorValue) && notices == old(notices)
      ensures result.Err? ==>
        && previousSelection == old(previousSelection) && selectorValue == previousSelection
        && notices == old(notices) + [Notice(ErrorMessage(result.error), ErrorNotice)]
        && templateText == old(templateText) && variablesText == old(variablesText)
        && unsaved == old(unsaved) && pendingDeadline == old(pendingDeadline)
    {
      loadsInFlight := loadsInFlight - multiset{filename};
      if result.Ok? {
        ApplyTemplate(filename, result.value, now);
      } else {
        clock := now;
        selectorValue := previousSelection;
        notices := notices + [Notice(ErrorMessage(result.error), ErrorNotice)];
      }
    }

    /** The success path of a load: both editors receive the fetched text
        (each raising its change notification), then the selection is
        recorded and the page is clean again. */
    method ApplyTemplate(filename: string, data: TemplateData, now: nat)
      requires Valid() && clock <= now
      modifies this`clock, this`pendingDeadline, this`unsaved, this`templateText,
               this`variablesText, this`previousSelection
      ensures Valid() && clock == now
      ensures templateText == data.content && variablesText == data.variables
      ensures previousSelection == filename && !unsaved
      ensures pendingDeadline == Some(now + Scheduler.DebounceMs)
    {
      Edit(now, TemplateEditor, data.content);
      Edit(now, VariablesEditor, data.variables);
      previousSelection := filename;
      unsaved := false;
    }

    /** A click on the export button (the browser delivers no click to the
        button while it is disabled). The button is disabled and the export
        request is sent with a name built from the current ISO timestamp. */
    method ClickExport(buttonPresent: bool, isoNow: string) returns (request: Option<ExportRequest>)
      requires Valid() && !exportBusy
      modifies this`exportBusy, this`exportInFlight, this`notices
      ensures Valid()
      ensures !buttonPresent ==> request.None? && !exportBusy
                                 && notices == old(notices) + [Notice(ExportButtonMissingMessage, InfoNotice)]
      ensures buttonPresent ==> exportBusy && notices == old(notices)
                                && request == Some(ExportRequest(templateText, RequestVariables(variablesText), ExportFilename(isoNow)))
      ensures exportInFlight == request
    {
      if !buttonPresent {
        notices := notices + [Notice(ExportButtonMissingMessage, InfoNotice)];
        return None;
      }
      exportBusy := true;
      request := Some(ExportRequest(templateText, RequestVariables(variablesText), ExportFilename(isoNow)));
      exportInFlight := request;
    }

    /** The export request settles (`failure` is None on success); the
        button is enabled again on every path. */
    method ExportSettles(failure: Option<ClientError>)
      requires Valid() && exportBusy
      modifies this`exportBusy, this`exportInFlight, this`notices
      ensures Valid()
      ensures !exportBusy && exportInFlight.None?
      ensures failure.None? ==> notices == old(notices) + [Notice(ExportSuccessPrefix + old(exportInFlight).value.filename, SuccessNotice)]
      ensures failure.Some? ==> notices == old(notices) + [Notice(ErrorMessage(failure.value), ErrorNotice)]
    {
      if failure.None? {
        notices := notices + [Notice(ExportSuccessPrefix + exportInFlight.value.filename, SuccessNotice)];
      } else {
        notices := notices + [Notice(ErrorMessage(failure.value), ErrorNotice)];
      }
      exportBusy := false;
      exportInFlight := None;
    }
  }
}
