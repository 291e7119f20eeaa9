/**
 * The back end's request handling: what each API route does with a request,
 * which collaborator calls it makes and in what order, and which response or
 * error the client finally receives after the error handler.
 *
 * The collaborators are parameters: `parse` is JSON.parse (None when it
 * throws), `render` the template renderer and `exportPdf` the PDF exporter
 * (None when they fail), `dir` and `fs` the template directory, and
 * `statusOf` the status code each error class carries.
 */
module Server {
  import opened Common

  /** A JSON value as the body parser delivers it, and `undefined` for a field
      the body does not have. */
  datatype JsValue =
    | Undefined
    | Null
    | Bool(b: bool)
    | Num(n: real)
    | Str(s: string)
    | Arr(items: seq<JsValue>)
    | Obj(fields: map<string, JsValue>)

  /** JavaScript truthiness. */
  predicate Truthy(v: JsValue) {
    match v
    case Undefined => false
    case Null => false
    case Bool(b) => b
    case Num(n) => n != 0.0
    case Str(s) => s != ""
    case Arr(_) => true
    case Obj(_) => true
  }

  datatype ErrorKind = Validation | NotFound | Internal

  /** The application's error classes: each carries its own message, and its
      status code is `statusOf(kind)`. */
  datatype AppError = AppError(kind: ErrorKind, message: string)

  const TemplateRequired := "Template content is required"
  const InvalidJson := "Invalid JSON in variables"
  const UnableToRender := "Unable to render template"
  const UnableToExport := "Unable to export PDF"
  const UnableToList := "Unable to read templates"
  const UnableToRead := "Unable to read template"
  const InternalMessage := "An internal server error occurred"

  /** What reaches the error handler: an application error, or anything else. */
  datatype Thrown = Raised(error: AppError) | Foreign

  datatype Body = JsonBody(value: JsValue) | PdfStream(bytes: seq<byte>)
  datatype Response = Response(status: nat, headers: seq<(string, string)>, body: Body)

  function MessageBody(message: string): JsValue {
    Obj(map["message" := Str(message)])
  }

  /** The error handler at the end of the middleware chain. */
  function ErrorHandler(t: Thrown, statusOf: ErrorKind -> nat): (r: Response)
    ensures t.Raised? ==> r == Response(statusOf(t.error.kind), [], JsonBody(MessageBody(t.error.message)))
    ensures t.Foreign? ==> r == Response(500, [], JsonBody(MessageBody(InternalMessage)))
  {
    match t
    case Raised(e) => Response(statusOf(e.kind), [], JsonBody(MessageBody(e.message)))
    case Foreign => Response(500, [], JsonBody(MessageBody(InternalMessage)))
  }

  /** A call the route makes on a collaborator. */
  datatype Call =
    | ReadDir
    | ReadFile(name: string)
    | RenderCall(template: JsValue, variables: JsValue)
    | ExportCall(html: string)

  /** A route's calls, in order, and either the response it sends or the
      error it throws to the error handler. */
  datatype Handled = Handled(calls: seq<Call>, outcome: Result<Response, AppError>)

  /** What the client receives. */
  function Respond(h: Handled, statusOf: ErrorKind -> nat): Response {
    match h.outcome
    case Ok(r) => r
    case Err(e) => ErrorHandler(Raised(e), statusOf)
  }

  function Ok200(v: JsValue): Response {
    Response(200, [], JsonBody(v))
  }

  // ---------------------------------------------------------------- listing

  /** The file names that end in ".twig", in directory order. */
  function TwigFiles(files: seq<string>): (r: seq<string>)
    ensures |r| <= |files|
    ensures forall x :: x in r <==> x in files && EndsWith(x, ".twig")
    decreases |files|
  {
    if files == [] then []
    else if EndsWith(files[0], ".twig") then [files[0]] + TwigFiles(files[1..])
    else TwigFiles(files[1..])
  }

  /** Filtering commutes with concatenation, so the relative order of the
      kept names is their order in the directory listing. */
  lemma {:induction false} TwigFilesAppend(a: seq<string>, b: seq<string>)
    ensures TwigFiles(a + b) == TwigFiles(a) + TwigFiles(b)
    decreases |a|
  {
    if a == [] {
      assert a + b == b;
    } else {
      assert (a + b)[0] == a[0];
      assert (a + b)[1..] == a[1..] + b;
      TwigFilesAppend(a[1..], b);
    }
  }

  /** Each kept name is kept as often as it occurs; the others vanish. */
  lemma {:induction false} TwigFilesCount(files: seq<string>, x: string)
    ensures multiset(TwigFiles(files))[x] == if EndsWith(x, ".twig") then multiset(files)[x] else 0
    decreases |files|
  {
    if files != [] {
      assert files == [files[0]] + files[1..];
      TwigFilesCount(files[1..], x);
    }
  }

  /** Filtering twice keeps the same names. */
  lemma {:induction false} TwigFilesIdempotent(files: seq<string>)
    ensures TwigFiles(TwigFiles(files)) == TwigFiles(files)
    decreases |files|
  {
    if files != [] {
      TwigFilesIdempotent(files[1..]);
      if EndsWith(files[0], ".twig") {
        var r := [files[0]] + TwigFiles(files[1..]);
        assert r[0] == files[0] && r[1..] == TwigFiles(files[1..]);
      }
    }
  }

  function StrArray(names: seq<string>): (v: JsValue)
    ensures v.Arr? && |v.items| == |names|
    ensures forall i :: 0 <= i < |names| ==> v.items[i] == Str(names[i])
  {
    Arr(seq(|names|, i requires 0 <= i < |names| => Str(names[i])))
  }

  /** GET /api/templates; `dir` is the directory listing, None when it cannot be read. */
  function ListTemplates(dir: Option<seq<string>>): (h: Handled)
    ensures h.calls == [ReadDir]
    ensures dir.None? <==> h.outcome == Err(AppError(Internal, UnableToList))
    ensures dir.Some? ==> h.outcome == Ok(Ok200(StrArray(TwigFiles(dir.value))))
  {
    match dir
    case None => Handled([ReadDir], Err(AppError(Internal, UnableToList)))
    case Some(files) => Handled([ReadDir], Ok(Ok200(StrArray(TwigFiles(files)))))
  }

  // ---------------------------------------------------------------- fetching

  /** The result of reading one file: its text, or the error code raised. */
  datatype FileRead = Contents(text: string) | ReadError(code: string)

  function NotFoundMessage(filename: string): string {
    "Template '" + filename + "' not found"
  }

  /** Maps a failed read to the error the route throws. */
  function ReadFailure(filename: string, code: string): (e: AppError)
    ensures e.kind == NotFound <==> code == "ENOENT"
    ensures e.kind == NotFound ==> e.message == "Template '" + filename + "' not found"
    ensures e.kind != NotFound ==> e == AppError(Internal, UnableToRead)
  {
    if code == "ENOENT" then AppError(NotFound, NotFoundMessage(filename))
    else AppError(Internal, UnableToRead)
  }

  /** GET /api/templates/:filename. The template file is read first and its
      variables file only when that succeeds; a missing file of either kind is
      "not found" for the template, every other failure the generic read error. */
  function GetTemplate(filename: string, fs: string -> FileRead): (h: Handled)
    ensures h.calls == if fs(filename).Contents? then [ReadFile(filename), ReadFile(filename + ".json")]
                       else [ReadFile(filename)]
    ensures h.outcome.Ok? <==> fs(filename).Contents? && fs(filename + ".json").Contents?
    ensures h.outcome.Ok? ==> h.outcome.value == Ok200(Obj(map[
              "content" := Str(fs(filename).text),
              "variables" := Str(fs(filename + ".json").text)]))
    ensures h.outcome.Err? ==>
              var code := if fs(filename).ReadError? then fs(filename).code else fs(filename + ".json").code;
              h.outcome.error == (if code == "ENOENT" then AppError(NotFound, "Template '" + filename + "' not found")
                                  else AppError(Internal, UnableToRead))
  {
    var variablesFile := filename + ".json";
    match fs(filename)
    case ReadError(code) => Handled([ReadFile(filename)], Err(ReadFailure(filename, code)))
    case Contents(content) =>
      match fs(variablesFile)
      case ReadError(code) =>
        Handled([ReadFile(filename), ReadFile(variablesFile)], Err(ReadFailure(filename, code)))
      case Contents(variables) =>
        Handled([ReadFile(filename), ReadFile(variablesFile)],
                Ok(Ok200(Obj(map["content" := Str(content), "variables" := Str(variables)]))))
  }

  // ---------------------------------------------------------------- rendering

  /** The JSON fields of a render or export request. */
  datatype RequestBody = RequestBody(template: JsValue, variables: JsValue, filename: Option<string>)

  /** Variables normalisation: a falsy value is the empty context, a string is
      parsed as JSON, anything else is used as it is. */
  function NormalizeVariables(v: JsValue, parse: string -> Option<JsValue>): (r: Result<JsValue, AppError>)
    ensures !Truthy(v) ==> r == Ok(Obj(map[]))
    ensures Truthy(v) && v.Str? && parse(v.s).Some? ==> r == Ok(parse(v.s).value)
    ensures Truthy(v) && v.Str? && parse(v.s).None? ==> r == Err(AppError(Validation, InvalidJson))
    ensures Truthy(v) && !v.Str? ==> r == Ok(v)
  {
    if !Truthy(v) then Ok(Obj(map[]))
    else if v.Str? then
      match parse(v.s)
      case Some(parsed) => Ok(parsed)
      case None => Err(AppError(Validation, InvalidJson))
    else Ok(v)
  }

  /** Why the body of a route's `try` stopped, before its catch sees it. */
  datatype Fault = Rejected(error: AppError) | RendererFailed | ExporterFailed

  /** The validation and render steps shared by both POST routes: the calls
      made and either the html or the fault. */
  function RenderSteps(body: RequestBody, parse: string -> Option<JsValue>,
                       render: (JsValue, JsValue) -> Option<string>): (s: (seq<Call>, Result<string, Fault>))
    ensures var vars := NormalizeVariables(body.variables, parse);
      && (s.0 == if Truthy(body.template) && vars.Ok? then [RenderCall(body.template, vars.value)] else [])
      && (s.1.Ok? <==> Truthy(body.template) && vars.Ok? && render(body.template, vars.value).Some?)
      && (s.1.Ok? ==> s.1.value == render(body.template, vars.value).value)
      && (s.1 == Err(RendererFailed) <==> Truthy(body.template) && vars.Ok? && render(body.template, vars.value).None?)
  {
    if !Truthy(body.template) then ([], Err(Rejected(AppError(Validation, TemplateRequired))))
    else
      match NormalizeVariables(body.variables, parse)
      case Err(e) => ([], Err(Rejected(e)))
      case Ok(vars) =>
        ([RenderCall(body.template, vars)],
         match render(body.template, vars)
         case Some(html) => Ok(html)
         case None => Err(RendererFailed))
  }

  /** Validation comes first: a falsy template or unparseable variables stop
      the steps with a validation error before any render call. */
  lemma ValidationPrecedesRender(body: RequestBody, parse: string -> Option<JsValue>,
                                 render: (JsValue, JsValue) -> Option<string>)
    ensures !Truthy(body.template) ==>
      RenderSteps(body, parse, render) == ([], Err(Rejected(AppError(Validation, TemplateRequired))))
    ensures Truthy(body.template) && Truthy(body.variables) && body.variables.Str? && parse(body.variables.s).None? ==>
      RenderSteps(body, parse, render) == ([], Err(Rejected(AppError(Validation, InvalidJson))))
    ensures RenderSteps(body, parse, render).0 == [] <==> RenderSteps(body, parse, render).1.Err? && RenderSteps(body, parse, render).1.error.Rejected?
  {
  }

  /** POST /api/render. It succeeds exactly when the template is truthy, the
      variables normalise and the renderer returns html; the response is that
      html. Every failure, the two validation errors included, is thrown as the
      one generic internal error. */
  function RenderRoute(body: RequestBody, parse: string -> Option<JsValue>,
                       render: (JsValue, JsValue) -> Option<string>): (h: Handled)
    ensures var vars := NormalizeVariables(body.variables, parse);
      && (h.outcome.Ok? <==> Truthy(body.template) && vars.Ok? && render(body.template, vars.value).Some?)
      && (h.outcome.Ok? ==> h.outcome.value == Ok200(Obj(map["html" := Str(render(body.template, vars.value).value)])))
      && (h.outcome.Err? ==> h.outcome.error == AppError(Internal, UnableToRender))
      && (h.calls == if Truthy(body.template) && vars.Ok? then [RenderCall(body.template, vars.value)] else [])
  {
    var (calls, r) := RenderSteps(body, parse, render);
    match r
    case Ok(html) => Handled(calls, Ok(Ok200(Obj(map["html" := Str(html)]))))
    case Err(_) => Handled(calls, Err(AppError(Internal, UnableToRender)))
  }

  /** The client never sees the validation message of the render route: an
      empty template reaches it as the internal error's status and message. */
  lemma RenderValidationIsMasked(body: RequestBody, parse: string -> Option<JsValue>,
                                 render: (JsValue, JsValue) -> Option<string>, statusOf: ErrorKind -> nat)
    requires !Truthy(body.template)
    ensures RenderRoute(body, parse, render).calls == []
    ensures Respond(RenderRoute(body, parse, render), statusOf)
            == Response(statusOf(Internal), [], JsonBody(MessageBody(UnableToRender)))
  {
  }

  // ---------------------------------------------------------------- export

  /** `filename || template-<millis>.pdf` */
  function PdfFilename(filename: Option<string>, millis: nat): (name: string)
    ensures filename.Some? && filename.value != "" ==> name == filename.value
    ensures filename.None? || filename.value == "" ==> name == "template-" + Decimal(millis) + ".pdf"
  {
    if filename.Some? && filename.value != "" then filename.value
    else "template-" + Decimal(millis) + ".pdf"
  }

  /** Default names made at different times differ. */
  lemma DefaultNamesDiffer(m: nat, n: nat)
    requires m != n
    ensures PdfFilename(None, m) != PdfFilename(None, n)
  {
    if PdfFilename(None, m) == PdfFilename(None, n) {
      var a, b := Decimal(m), Decimal(n);
      assert "template-" + a + ".pdf" == "template-" + b + ".pdf";
      assert |a| == |b|;
      assert a == ("template-" + a + ".pdf")[9..9 + |a|];
      assert b == ("template-" + b + ".pdf")[9..9 + |b|];
      DecimalInjective(m, n);
    }
  }

  function PdfHeaders(name: string): seq<(string, string)> {
    [("Content-disposition", "attachment; filename=" + name), ("Content-Type", "application/pdf")]
  }

  /** The characters Node accepts in a header value: tab, printable ASCII and
      0x80-0xFF. Setting a header to any other value throws. */
  predicate HeaderSafe(value: string) {
    forall i :: 0 <= i < |value| ==> HeaderChar(value[i])
  }

  predicate HeaderChar(c: char) {
    c as int == 9 || 0x20 <= c as int <= 0x7E || 0x80 <= c as int <= 0xFF
  }

  /** Every attachment header is accepted exactly when the file name is: the
      fixed part of the header value and the content type are plain ASCII. */
  lemma {:induction false} HeadersSafeIffName(name: string)
    ensures (forall h :: h in PdfHeaders(name) ==> HeaderSafe(h.1)) <==> HeaderSafe(name)
  {
    var prefix := "attachment; filename=";
    var value := prefix + name;
    assert HeaderSafe(prefix);
    assert HeaderSafe("application/pdf");
    if HeaderSafe(name) {
      forall i | 0 <= i < |value| ensures HeaderChar(value[i]) {
        if i >= |prefix| {
          assert value[i] == name[i - |prefix|];
        }
      }
    } else {
      var j :| 0 <= j < |name| && !HeaderChar(name[j]);
      assert value[|prefix| + j] == name[j];
    }
    assert PdfHeaders(name)[0].1 == value;
  }

  /** A default name is always accepted: it is made of ASCII letters, digits,
      '-' and '.'. */
  lemma DefaultNameIsSafe(millis: nat)
    ensures HeaderSafe(PdfFilename(None, millis))
  {
    var digits := Decimal(millis);
    var name := "template-" + digits + ".pdf";
    forall i | 0 <= i < |name| ensures HeaderChar(name[i]) {
      if 9 <= i < 9 + |digits| {
        assert name[i] == digits[i - 9];
      }
    }
  }

  /** POST /api/export: validation and render, then the default name (using
      the clock reading `millis`), then the PDF of the rendered html. The
      exporter is called only with the html of a completed render, after it;
      the route succeeds exactly when every step does, and then streams exactly
      the exporter's bytes under the attachment headers. Every failure is the
      one generic export error. */
  function ExportRoute(body: RequestBody, parse: string -> Option<JsValue>,
                       render: (JsValue, JsValue) -> Option<string>,
                       exportPdf: string -> Option<seq<byte>>, millis: nat): (h: Handled)
    ensures var vars := NormalizeVariables(body.variables, parse);
      var rendered := Truthy(body.template) && vars.Ok? && render(body.template, vars.value).Some?;
      && (h.calls == if !(Truthy(body.template) && vars.Ok?) then []
                     else if !rendered then [RenderCall(body.template, vars.value)]
                     else [RenderCall(body.template, vars.value), ExportCall(render(body.template, vars.value).value)])
      && (h.outcome.Ok? <==> rendered && exportPdf(render(body.template, vars.value).value).Some?
                             && HeaderSafe(PdfFilename(body.filename, millis)))
      && (h.outcome.Ok? ==> h.outcome.value == Response(200,
            PdfHeaders(PdfFilename(body.filename, millis)),
            PdfStream(exportPdf(render(body.template, vars.value).value).value)))
      && (h.outcome.Err? ==> h.outcome.error == AppError(Internal, UnableToExport))
  {
    var (calls, r) := RenderSteps(body, parse, render);
    match r
    case Err(_) => Handled(calls, Err(AppError(Internal, UnableToExport)))
    case Ok(html) =>
      var name := PdfFilename(body.filename, millis);
      match exportPdf(html)
      case None => Handled(calls + [ExportCall(html)], Err(AppError(Internal, UnableToExport)))
      case Some(pdf) =>
        HeadersSafeIffName(name);
        if forall hdr :: hdr in PdfHeaders(name) ==> HeaderSafe(hdr.1)
        then Handled(calls + [ExportCall(html)], Ok(Response(200, PdfHeaders(name), PdfStream(pdf))))
        else Handled(calls + [ExportCall(html)], Err(AppError(Internal, UnableToExport)))
  }

  /** A supplied name with a newline in it fails the route after the PDF has
      been made: setting the attachment header throws, and the catch turns
      that into the generic export failure. */
  lemma NewlineNameFailsAfterExport(body: RequestBody, parse: string -> Option<JsValue>,
                                    render: (JsValue, JsValue) -> Option<string>,
                                    exportPdf: string -> Option<seq<byte>>, millis: nat)
    requires body.template == Str("x") && body.variables == Undefined && body.filename == Some("a\nb.pdf")
    requires render(Str("x"), Obj(map[])).Some? && exportPdf(render(Str("x"), Obj(map[])).value).Some?
    ensures |ExportRoute(body, parse, render, exportPdf, millis).calls| == 2
    ensures ExportRoute(body, parse, render, exportPdf, millis).outcome == Err(AppError(Internal, UnableToExport))
  {
    assert !HeaderChar(PdfFilename(body.filename, millis)[1]);
  }

  /** Invalid JSON in the variables of an export request reaches the client as
      the generic export failure, with nothing rendered or exported. */
  lemma ExportValidationIsMasked(body: RequestBody, parse: string -> Option<JsValue>,
                                 render: (JsValue, JsValue) -> Option<string>,
                                 exportPdf: string -> Option<seq<byte>>, millis: nat, statusOf: ErrorKind -> nat)
    requires Truthy(body.template) && body.variables.Str? && body.variables.s != ""
    requires parse(body.variables.s).None?
    ensures ExportRoute(body, parse, render, exportPdf, millis).calls == []
    ensures Respond(ExportRoute(body, parse, render, exportPdf, millis), statusOf)
            == Response(statusOf(Internal), [], JsonBody(MessageBody(UnableToExport)))
  {
  }
}
