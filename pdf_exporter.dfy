/**
 * The PDF exporter: one fresh headless browser per export, driven through
 * new page, content load and PDF capture, and closed in a `finally`.
 *
 * The browser engine is an object of class Engine: every call on it is
 * appended to its effect log, and whether each call succeeds (and which bytes
 * the capture yields) is the environment's choice, held in `behaviour`.
 */
module PdfExport {
  import opened Common

  /** A value in an options object. */
  datatype OptionValue = Text(s: string) | Flag(b: bool) | Number(n: real)

  /** A PDF options object: its keys and their values. */
  type PdfOptions = map<string, OptionValue>

  const DefaultPdfOptions: PdfOptions := map["format" := Text("A4"), "printBackground" := Flag(true)]

  /** `{ format: "A4", printBackground: true, ...opts }`: every key of the
      caller's options wins; the defaults fill in the rest. */
  function MergeOptions(opts: PdfOptions): (r: PdfOptions)
    ensures r.Keys == DefaultPdfOptions.Keys + opts.Keys
    ensures forall k :: k in opts ==> r[k] == opts[k]
    ensures forall k :: k in DefaultPdfOptions && k !in opts ==> r[k] == DefaultPdfOptions[k]
  {
    DefaultPdfOptions + opts
  }

  /** Without caller options the capture is A4 with backgrounds printed. */
  lemma DefaultsWhenNoOptions()
    ensures MergeOptions(map[]) == map["format" := Text("A4"), "printBackground" := Flag(true)]
  {
  }

  datatype LaunchOptions = LaunchOptions(headless: bool, args: seq<string>)

  const ExportLaunch := LaunchOptions(true, ["--no-sandbox", "--disable-setuid-sandbox"])
  const WaitUntil := "networkidle0"

  /** Browsers are numbered in launch order. */
  type BrowserId = nat

  /** One call made on the engine (made, whether or not it then failed). */
  datatype Effect =
    | Launch(launchOptions: LaunchOptions)
    | NewPage(browser: BrowserId)
    | SetContent(browser: BrowserId, html: string, waitUntil: string)
    | CapturePdf(browser: BrowserId, pdfOptions: PdfOptions)
    | Close(browser: BrowserId)

  /** Which step of an export failed. */
  datatype Fault = LaunchFailed | NewPageFailed | SetContentFailed | PdfFailed | CloseFailed

  /** How the engine answers the calls: whether each succeeds, and the bytes
      of a successful capture. */
  datatype Behaviour = Behaviour(
    launchOk: bool, newPageOk: bool, setContentOk: bool, pdf: Option<seq<byte>>, closeOk: bool)

  function BrowserOf(e: Effect): Option<BrowserId> {
    match e
    case Launch(_) => None
    case NewPage(b) => Some(b)
    case SetContent(b, _, _) => Some(b)
    case CapturePdf(b, _) => Some(b)
    case Close(b) => Some(b)
  }

  /** The calls one export makes on browser `id`, in order. */
  function ExportEffects(id: BrowserId, html: string, opts: PdfOptions, b: Behaviour): (r: seq<Effect>)
    ensures |r| >= 1 && r[0] == Launch(ExportLaunch)
    ensures !b.launchOk ==> |r| == 1
    ensures b.launchOk ==> 3 <= |r| <= 5 && r[1] == NewPage(id) && r[|r| - 1] == Close(id)
    ensures b.launchOk && b.newPageOk && b.setContentOk ==> |r| == 5 && r[3] == CapturePdf(id, MergeOptions(opts))
  {
    if !b.launchOk then [Launch(ExportLaunch)]
    else
      [Launch(ExportLaunch), NewPage(id)]
      + (if !b.newPageOk then []
         else [SetContent(id, html, WaitUntil)]
              + (if !b.setContentOk then [] else [CapturePdf(id, MergeOptions(opts))]))
      + [Close(id)]
  }

  /** What one export returns. A close that fails replaces the outcome, as an
      exception thrown in a `finally` does. */
  function ExportResult(b: Behaviour): (r: Result<seq<byte>, Fault>)
    ensures r.Ok? ==> b.pdf == Some(r.value) && b.closeOk
    ensures b.launchOk && !b.closeOk ==> r == Err(CloseFailed)
    ensures b.launchOk && b.closeOk && !b.newPageOk ==> r == Err(NewPageFailed)
  {
    if !b.launchOk then Err(LaunchFailed)
    else if !b.closeOk then Err(CloseFailed)
    else if !b.newPageOk then Err(NewPageFailed)
    else if !b.setContentOk then Err(SetContentFailed)
    else if b.pdf.None? then Err(PdfFailed)
    else Ok(b.pdf.value)
  }

  /** The full sequence of an export that gets through every step. */
  function AllSteps(id: BrowserId, html: string, opts: PdfOptions): seq<Effect> {
    [Launch(ExportLaunch), NewPage(id), SetContent(id, html, WaitUntil), CapturePdf(id, MergeOptions(opts))]
  }

  /** How many of the steps after the launch are attempted. */
  function Attempted(b: Behaviour): nat {
    if !b.newPageOk then 1 else if !b.setContentOk then 2 else 3
  }

  function CountCloses(effects: seq<Effect>): nat
    decreases |effects|
  {
    if effects == [] then 0
    else (if effects[0].Close? then 1 else 0) + CountCloses(effects[1..])
  }

  lemma {:induction false} CountClosesAppend(a: seq<Effect>, b: seq<Effect>)
    ensures CountCloses(a + b) == CountCloses(a) + CountCloses(b)
    decreases |a|
  {
    if a == [] {
      assert a + b == b;
    } else {
      assert (a + b)[0] == a[0];
      assert (a + b)[1..] == a[1..] + b;
      CountClosesAppend(a[1..], b);
    }
  }

  lemma {:induction false} NoCloses(effects: seq<Effect>)
    requires forall i :: 0 <= i < |effects| ==> !effects[i].Close?
    ensures CountCloses(effects) == 0
    decreases |effects|
  {
    if effects != [] {
      NoCloses(effects[1..]);
    }
  }

  /** Release exactly once: a launched browser is closed once, as the very last
      call, whichever step fails; a failed launch closes nothing. */
  lemma CloseExactlyOnce(id: BrowserId, html: string, opts: PdfOptions, b: Behaviour)
    ensures CountCloses(ExportEffects(id, html, opts, b)) == if b.launchOk then 1 else 0
    ensures b.launchOk ==> ExportEffects(id, html, opts, b)[|ExportEffects(id, html, opts, b)| - 1] == Close(id)
  {
    var effects := ExportEffects(id, html, opts, b);
    if b.launchOk {
      var body := AllSteps(id, html, opts)[..1 + Attempted(b)];
      assert effects == body + [Close(id)];
      CountClosesAppend(body, [Close(id)]);
      NoCloses(body);
    }
  }

  /** Step order: the calls are a prefix of launch, new page, content load
      (waiting for network quiescence) and capture with the merged options,
      followed by the close once the launch has succeeded. */
  lemma StepOrder(id: BrowserId, html: string, opts: PdfOptions, b: Behaviour)
    ensures ExportEffects(id, html, opts, b)[0] == Launch(LaunchOptions(true, ["--no-sandbox", "--disable-setuid-sandbox"]))
    ensures forall e :: e in ExportEffects(id, html, opts, b) ==> BrowserOf(e).None? || BrowserOf(e) == Some(id)
    ensures !b.launchOk ==> ExportEffects(id, html, opts, b) == AllSteps(id, html, opts)[..1]
    ensures b.launchOk ==> ExportEffects(id, html, opts, b)
                           == AllSteps(id, html, opts)[..1 + Attempted(b)] + [Close(id)]
  {
  }

  /** The export returns the captured bytes exactly when every step, the close
      included, succeeds. */
  lemma ResultIsCapture(b: Behaviour)
    ensures ExportResult(b).Ok? <==> b.launchOk && b.newPageOk && b.setContentOk && b.pdf.Some? && b.closeOk
    ensures ExportResult(b).Ok? ==> ExportResult(b).value == b.pdf.value
    ensures !b.launchOk ==> ExportResult(b) == Err(LaunchFailed)
  {
  }

  /** Stands for puppeteer and the browsers it launches. */
  class Engine {
    /** Every call made so far, in order. */
    var log: seq<Effect>
    /** Browsers launched so far; the next one gets this number. */
    var launched: nat
    var behaviour: Behaviour

    /** Every call in the log concerns a browser already launched. */
    ghost predicate Valid()
      reads this
    {
      forall i :: 0 <= i < |log| ==> BrowserOf(log[i]).None? || BrowserOf(log[i]).value < launched
    }

    constructor (b: Behaviour)
      ensures Valid() && log == [] && launched == 0 && behaviour == b
    {
      log := [];
      launched := 0;
      behaviour := b;
    }

    method LaunchBrowser(options: LaunchOptions) returns (r: Option<BrowserId>)
      requires Valid()
      modifies this`log, this`launched
      ensures Valid()
      ensures log == old(log) + [Launch(options)]
      ensures behaviour.launchOk ==> r == Some(old(launched)) && launched == old(launched) + 1
      ensures !behaviour.launchOk ==> r.None? && launched == old(launched)
    {
      log := log + [Launch(options)];
      if behaviour.launchOk {
        r := Some(launched);
        launched := launched + 1;
      } else {
        r := None;
      }
    }

    method OpenPage(id: BrowserId) returns (ok: bool)
      requires Valid() && id < launched
      modifies this`log
      ensures Valid() && log == old(log) + [NewPage(id)] && ok == behaviour.newPageOk
    {
      log := log + [NewPage(id)];
      ok := behaviour.newPageOk;
    }

    method LoadContent(id: BrowserId, html: string, waitUntil: string) returns (ok: bool)
      requires Valid() && id < launched
      modifies this`log
      ensures Valid() && log == old(log) + [SetContent(id, html, waitUntil)] && ok == behaviour.setContentOk
    {
      log := log + [SetContent(id, html, waitUntil)];
      ok := behaviour.setContentOk;
    }

    method Capture(id: BrowserId, options: PdfOptions) returns (r: Option<seq<byte>>)
      requires Valid() && id < launched
      modifies this`log
      ensures Valid() && log == old(log) + [CapturePdf(id, options)] && r == behaviour.pdf
    {
      log := log + [CapturePdf(id, options)];
      r := behaviour.pdf;
    }

    method CloseBrowser(id: BrowserId) returns (ok: bool)
      requires Valid() && id < launched
      modifies this`log
      ensures Valid() && log == old(log) + [Close(id)] && ok == behaviour.closeOk
    {
      log := log + [Close(id)];
      ok := behaviour.closeOk;
    }
  }

  /** One export: launch, then new page, content load and capture inside a
      try whose `finally` closes the browser. The browser it uses is a new one,
      never seen in the log before. */
  method Export(engine: Engine, html: string, opts: PdfOptions) returns (r: Result<seq<byte>, Fault>)
    requires engine.Valid()
    modifies engine`log, engine`launched
    ensures engine.Valid()
    ensures engine.log == old(engine.log) + ExportEffects(old(engine.launched), html, opts, engine.behaviour)
    ensures r == ExportResult(engine.behaviour)
    ensures engine.launched == old(engine.launched) + (if engine.behaviour.launchOk then 1 else 0)
    ensures forall i :: 0 <= i < |old(engine.log)| ==>
              BrowserOf(engine.log[i]).None? || BrowserOf(engine.log[i]).value < old(engine.launched)
  {
    var browser := engine.LaunchBrowser(ExportLaunch);
    if browser.None? {
      return Err(LaunchFailed);
    }
    var id := browser.value;
    var pageOk := engine.OpenPage(id);
    if !pageOk {
      r := Err(NewPageFailed);
    } else {
      var loaded := engine.LoadContent(id, html, WaitUntil);
      if !loaded {
        r := Err(SetContentFailed);
      } else {
        var pdf := engine.Capture(id, MergeOptions(opts));
        r := if pdf.Some? then Ok(pdf.value) else Err(PdfFailed);
      }
    }
    var closed := engine.CloseBrowser(id);
    if !closed {
      r := Err(CloseFailed);
    }
  }
}
