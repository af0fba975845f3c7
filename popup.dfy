/**
 * The popup's controller, `CanvasSummarizer`: the toggle and regenerate
 * handlers, the single in-flight guard `isProcessing`, the summary cache it
 * reads and writes, and the order of the effects of one summarising run.
 *
 * `processAssignment` is split at the point where it awaits the page script
 * and the summariser: `BeginRun` is everything up to `showLoading()`,
 * `AttemptRun` computes the outcome of the `try` block and `FinishRun` is the
 * rest, so that handlers may run between them while `isProcessing` holds. The
 * page script, the popup's own DOM and the summariser are oracles given as
 * parameters.
 */
module Popup {
  import opened Wrappers
  import opened Strings
  import opened Links
  import opened Sanitizer
  import opened SummaryCache
  import opened Environment
  import opened Messaging

  const NotFoundMessage := "Assignment content not found"
  const NoContentMessage := "No assignment content found"
  const FallbackErrorMessage := "Failed to process assignment"

  /** The active tab as `chrome.tabs.query` reported it. */
  datatype Tab = Tab(id: int, url: string)

  /** The assignment element a selector found: its text, its markup and its anchors in document order. */
  datatype Element = Element(text: string, html: string, anchors: seq<Anchor>)

  /** `{ content, html, links }` */
  datatype AssignmentData = AssignmentData(content: string, html: string, links: seq<Link>)

  /** A summarising run that got as far as a summary. */
  datatype Done = Done(data: AssignmentData, summary: string)

  /** What the output section shows: nothing, the spinner, a summary with its links, or an error. */
  datatype Panel = Hidden | Loading | Results(summary: string, links: seq<Link>) | Failed(message: string)

  datatype StatusKind = Plain | Info | Warning

  datatype Status = Status(message: string, kind: StatusKind)

  /**
   * The externally visible effects of the controller, in the order they
   * happen. `SummaryReady` marks the start of publishing a summary the
   * summariser returned; a failed summariser call leaves no such effect.
   */
  datatype Effect =
    | SummaryReady(summary: string)
    | Displayed(summary: string, links: seq<Link>)
    | CacheWritten(key: string)
    | Pushed(tabId: int, sent: Message)
    | ErrorShown(message: string)

  // ----- extraction and the outcome of a run -----

  /**
   * `fetchAssignmentDataFromPage`: the injected script's result, with its
   * content sanitised; nothing when the script found no element or could not run.
   */
  function PageData(page: Option<Element>): Option<AssignmentData>
  {
    match page
    case None => None
    case Some(el) => Some(AssignmentData(Sanitize(el.text), el.html, PageLinks(el.anchors)))
  }

  /** `extractAssignmentData` on the element the popup's own DOM yields. */
  function DomData(el: Element): AssignmentData
  {
    AssignmentData(Sanitize(el.text), el.html, ExternalLinks(el.anchors))
  }

  /** The data a run works on: the page script's when it was used and returned something, else the popup's DOM. */
  function Extracted(usePage: bool, page: Option<Element>, dom: Option<Element>): Result<AssignmentData, string>
  {
    var fromPage := if usePage then PageData(page) else None;
    if fromPage.Some? then Ok(fromPage.value)
    else if dom.None? then Err(NotFoundMessage)
    else Ok(DomData(dom.value))
  }

  /** The `try` block of `processAssignment` up to the summariser's answer. */
  function Outcome(usePage: bool, page: Option<Element>, dom: Option<Element>,
                   summarise: AssignmentData -> Result<string, string>): Result<Done, string>
  {
    var ex := Extracted(usePage, page, dom);
    if ex.Err? then Err(ex.error)
    else if ex.value.content == "" then Err(NoContentMessage)
    else match summarise(ex.value)
      case Ok(s) => Ok(Done(ex.value, s))
      case Err(m) => Err(m)
  }

  /** `error.message || 'Failed to process assignment'` */
  function ErrorText(message: string): (r: string)
    ensures r != ""
    ensures message != "" ==> r == message
  {
    if message == "" then FallbackErrorMessage else message
  }

  /** The effects `FinishRun` adds, given the outcome, the page URL, whether storage exists and where to push. */
  function RunEffects(out: Result<Done, string>, url: string, stored: bool, pushTo: Option<int>): seq<Effect>
  {
    match out
    case Err(m) => [ErrorShown(ErrorText(m))]
    case Ok(d) =>
      [SummaryReady(d.summary), Displayed(d.summary, d.data.links)]
      + (if stored then [CacheWritten(SummaryKey(url))] else [])
      + (if pushTo.Some? then [Pushed(pushTo.value, RenderMessage(d.summary))] else [])
  }

  /**
   * A successful run summarised non-empty, sanitised content, passing the
   * summariser exactly the extracted data, and kept only external links.
   */
  lemma OutcomeOk(usePage: bool, page: Option<Element>, dom: Option<Element>,
                  summarise: AssignmentData -> Result<string, string>)
    requires Outcome(usePage, page, dom, summarise).Ok?
    ensures var d := Outcome(usePage, page, dom, summarise).value;
            && d.data == Extracted(usePage, page, dom).value
            && summarise(d.data) == Ok(d.summary)
            && d.data.content != ""
            && |d.data.content| <= MaxContentLength
            && SingleSpaced(d.data.content)
            && AllExternal(d.data.links)
  {
    var ex := Extracted(usePage, page, dom);
    if usePage && page.Some? {
      assert ex.value.links == PageLinks(page.value.anchors);
      PageLinksExternal(page.value.anchors);
      SanitizeShape(page.value.text);
    } else {
      SanitizeShape(dom.value.text);
      assert ex.value.links == ExternalLinks(dom.value.anchors);
      ExternalLinksCorrect(dom.value.anchors);
    }
  }

  /** The three ways a run fails, and nothing else. */
  lemma OutcomeErr(usePage: bool, page: Option<Element>, dom: Option<Element>,
                   summarise: AssignmentData -> Result<string, string>)
    requires Outcome(usePage, page, dom, summarise).Err?
    ensures var m := Outcome(usePage, page, dom, summarise).error;
            || (m == NotFoundMessage && !(usePage && page.Some?) && dom.None?)
            || (m == NoContentMessage && Extracted(usePage, page, dom).Ok? && Extracted(usePage, page, dom).value.content == "")
            || (Extracted(usePage, page, dom).Ok? && Extracted(usePage, page, dom).value.content != ""
                && summarise(Extracted(usePage, page, dom).value) == Err(m))
  {
  }

  /**
   * When the page script ran and found an element whose text is all
   * whitespace, the run fails with "No assignment content found" without
   * consulting the popup's DOM or the summariser.
   */
  lemma BlankPageNotSummarised(page: Element, dom: Option<Element>, summarise: AssignmentData -> Result<string, string>)
    requires forall i :: 0 <= i < |page.text| ==> IsSpace(page.text[i])
    ensures Outcome(true, Some(page), dom, summarise) == Err(NoContentMessage)
  {
    SanitizeEmptyIff(page.text);
  }

  /** A failed run shows one error and neither writes the cache nor pushes. */
  lemma FailureHasNoSideEffects(out: Result<Done, string>, url: string, stored: bool, pushTo: Option<int>)
    requires out.Err?
    ensures RunEffects(out, url, stored, pushTo) == [ErrorShown(ErrorText(out.error))]
    ensures forall k :: 0 <= k < |RunEffects(out, url, stored, pushTo)| ==>
              !RunEffects(out, url, stored, pushTo)[k].CacheWritten? && !RunEffects(out, url, stored, pushTo)[k].Pushed?
  {
  }

  /**
   * In a successful run the summary comes first and is displayed before
   * anything else; the cache write, when there is one, precedes the push;
   * and the pushed message carries the summary that was written.
   */
  lemma {:induction false} SuccessOrder(out: Result<Done, string>, url: string, stored: bool, pushTo: Option<int>)
    requires out.Ok?
    ensures var e := RunEffects(out, url, stored, pushTo);
            && |e| >= 2 && e[0] == SummaryReady(out.value.summary) && e[1] == Displayed(out.value.summary, out.value.data.links)
            && (forall i, j :: 0 <= i < |e| && 0 <= j < |e| && e[i].CacheWritten? && e[j].Pushed? ==> i < j)
            && (forall k :: 0 <= k < |e| && e[k].CacheWritten? ==> stored && e[k].key == SummaryKey(url))
            && (forall k :: 0 <= k < |e| && e[k].Pushed? ==> pushTo == Some(e[k].tabId) && e[k].sent == RenderMessage(out.value.summary))
            && (stored <==> exists k :: 0 <= k < |e| && e[k].CacheWritten?)
            && (pushTo.Some? <==> exists k :: 0 <= k < |e| && e[k].Pushed?)
  {
    var e := RunEffects(out, url, stored, pushTo);
    var s := out.value.summary;
    var w: seq<Effect> := if stored then [CacheWritten(SummaryKey(url))] else [];
    var p: seq<Effect> := if pushTo.Some? then [Pushed(pushTo.value, RenderMessage(s))] else [];
    assert e == [SummaryReady(s), Displayed(s, out.value.data.links)] + w + p;
    assert forall k :: 0 <= k < |e| && e[k].CacheWritten? ==> k == 2 && stored;
    assert forall k :: 0 <= k < |e| && e[k].Pushed? ==> k == 2 + |w| && pushTo.Some?;
    if stored { assert e[2].CacheWritten?; }
    if pushTo.Some? { assert e[2 + |w|].Pushed?; }
  }

  // ----- the controller -----

  class CanvasSummarizer {
    /** `chrome.storage.local`, or null where the storage API is absent. */
    const storage: LocalStorage?
    /** The tab found by `fetchActiveTabInfo`, and the URL it settled on. */
    const activeTab: Option<Tab>
    const activeTabUrl: string
    /** Whether `chrome.scripting.executeScript` and `chrome.tabs.sendMessage` exist. */
    const canScript: bool
    const canMessage: bool

    var isProcessing: bool
    var toggleChecked: bool
    var toggleDisabled: bool
    var status: Status
    var panel: Panel
    var regenerateVisible: bool
    ghost var trace: seq<Effect>

    constructor (storage: LocalStorage?, activeTab: Option<Tab>, activeTabUrl: string, canScript: bool, canMessage: bool)
      requires activeTab.Some? ==> activeTab.value.url == activeTabUrl
      ensures this.storage == storage && this.activeTab == activeTab && this.activeTabUrl == activeTabUrl
      ensures this.canScript == canScript && this.canMessage == canMessage
      ensures !isProcessing && !toggleChecked && !toggleDisabled && status == Status("", Plain)
      ensures panel == Hidden && !regenerateVisible && trace == []
    {
      this.storage := storage;
      this.activeTab := activeTab;
      this.activeTabUrl := activeTabUrl;
      this.canScript := canScript;
      this.canMessage := canMessage;
      isProcessing := false;
      toggleChecked := false;
      toggleDisabled := false;
      status := Status("", Plain);
      panel := Hidden;
      regenerateVisible := false;
      trace := [];
    }

    /** What `getCachedSummary(url)` resolves to. */
    function Cached(url: string): Option<Record>
      reads storage
    {
      if storage == null then None else Lookup(storage.items, SummaryKey(url))
    }

    /** Where `processAssignment` pushes a fresh summary: the active tab, if messaging exists. */
    function PushTarget(): Option<int>
    {
      if activeTab.Some? && canMessage then Some(activeTab.value.id) else None
    }

    /** `getCachedSummary(url)`: the record under `summary_<url>`, or nothing, also when there is no storage. */
    method GetCachedSummary(url: string) returns (r: Option<Record>)
      ensures r == Cached(url)
      ensures storage == null ==> r.None?
    {
      if storage == null {
        return None;
      }
      r := storage.Get(SummaryKey(url));
    }

    /** `saveSummaryToCache(url, summary, links)` at time `now`; without storage it does nothing. */
    method SaveSummaryToCache(url: string, summary: string, links: seq<Link>, now: int)
      modifies this, storage
      ensures storage != null ==> storage.items == Saved(old(storage.items), url, summary, links, now)
      ensures trace == old(trace) + (if storage != null then [CacheWritten(SummaryKey(url))] else [])
      ensures isProcessing == old(isProcessing) && toggleChecked == old(toggleChecked) && toggleDisabled == old(toggleDisabled)
      ensures status == old(status) && panel == old(panel) && regenerateVisible == old(regenerateVisible)
    {
      if storage == null {
        return;
      }
      storage.Set(SummaryKey(url), Stamped(summary, links, now));
      trace := trace + [CacheWritten(SummaryKey(url))];
    }

    /**
     * `extractExternalLinks`: walks the anchors in document order, keeping
     * each external one whose URL has not been collected yet.
     */
    method ExtractExternalLinks(anchors: seq<Anchor>) returns (links: seq<Link>)
      ensures links == ExternalLinks(anchors)
    {
      links := [];
      var i := 0;
      while i < |anchors|
        invariant 0 <= i <= |anchors|
        invariant links == ExternalLinks(anchors[..i])
      {
        var a := anchors[i];
        ExternalLinksPrefix(anchors, i);
        if IsExternalLink(a.href) && !HasUrl(links, a.href) {
          links := links + [LinkOf(a)];
        }
        i := i + 1;
      }
      assert anchors[..i] == anchors;
    }

    /** `extractAssignmentData`: fails with "Assignment content not found" when no element was found. */
    method ExtractAssignmentData(dom: Option<Element>) returns (r: Result<AssignmentData, string>)
      ensures dom.None? <==> r == Err(NotFoundMessage)
      ensures dom.Some? ==> r == Ok(DomData(dom.value))
    {
      if dom.None? {
        return Err(NotFoundMessage);
      }
      var links := ExtractExternalLinks(dom.value.anchors);
      r := Ok(AssignmentData(Sanitize(dom.value.text), dom.value.html, links));
    }

    /** `displayResults(summary, links)` */
    method DisplayResults(summary: string, links: seq<Link>)
      modifies this
      ensures panel == Results(summary, links) && trace == old(trace) + [Displayed(summary, links)]
      ensures isProcessing == old(isProcessing) && toggleChecked == old(toggleChecked) && toggleDisabled == old(toggleDisabled)
      ensures status == old(status) && regenerateVisible == old(regenerateVisible)
    {
      panel := Results(summary, links);
      trace := trace + [Displayed(summary, links)];
    }

    /** `showError(message)`: shows the error and unchecks the toggle. */
    method ShowError(message: string)
      modifies this
      ensures panel == Failed(message) && !toggleChecked && trace == old(trace) + [ErrorShown(message)]
      ensures isProcessing == old(isProcessing) && toggleDisabled == old(toggleDisabled)
      ensures status == old(status) && regenerateVisible == old(regenerateVisible)
    {
      panel := Failed(message);
      toggleChecked := false;
      trace := trace + [ErrorShown(message)];
    }

    /** `hideOutput()` */
    method HideOutput()
      modifies this
      ensures panel == Hidden
      ensures isProcessing == old(isProcessing) && toggleChecked == old(toggleChecked) && toggleDisabled == old(toggleDisabled)
      ensures status == old(status) && regenerateVisible == old(regenerateVisible) && trace == old(trace)
    {
      panel := Hidden;
    }

    /** `enableToggle(message)` */
    method EnableToggle(message: string)
      modifies this
      ensures !toggleDisabled && status == Status(message, Info)
      ensures isProcessing == old(isProcessing) && toggleChecked == old(toggleChecked) && panel == old(panel)
      ensures regenerateVisible == old(regenerateVisible) && trace == old(trace)
    {
      toggleDisabled := false;
      status := Status(message, Info);
    }

    /** `disableToggle(message)`: disables and unchecks the toggle, warns, and hides the output. */
    method DisableToggle(message: string)
      modifies this
      ensures toggleDisabled && !toggleChecked && status == Status(message, Warning) && panel == Hidden
      ensures isProcessing == old(isProcessing) && regenerateVisible == old(regenerateVisible) && trace == old(trace)
    {
      toggleDisabled := true;
      toggleChecked := false;
      status := Status(message, Warning);
      HideOutput();
    }

    /**
     * `checkCanvasEnvironment`: `parse` stands for `new URL(...)` (nothing
     * when it throws) applied to `activeTabUrl || window.location.href`.
     */
    method CheckCanvasEnvironment(parse: string -> Option<UrlParts>, location: string)
      modifies this
      ensures var d := Decide(parse(UrlToParse(activeTabUrl, activeTabUrl, location)));
              && (d.Enable? ==> !toggleDisabled && toggleChecked == old(toggleChecked) && panel == old(panel)
                                && status == Status(ReadyMessage, Info))
              && (d.Disable? ==> toggleDisabled && !toggleChecked && panel == Hidden && status == Status(d.message, Warning))
      ensures isProcessing == old(isProcessing) && regenerateVisible == old(regenerateVisible) && trace == old(trace)
    {
      var parsed := parse(UrlToParse(activeTabUrl, activeTabUrl, location));
      if !DetectCanvasEnvironment(parsed) {
        DisableToggle(NotCanvasMessage);
        return;
      }
      if !IsAssignmentPage(parsed) {
        DisableToggle(NotAssignmentMessage);
        return;
      }
      EnableToggle(ReadyMessage);
    }

    /** Shows a cached record: `displayResults(cached.summary, cached.links || [])` and the regenerate button. */
    method ShowCached(r: Record)
      modifies this
      ensures panel == Results(r.summary, r.links) && regenerateVisible
      ensures trace == old(trace) + [Displayed(r.summary, r.links)]
      ensures isProcessing == old(isProcessing) && toggleChecked == old(toggleChecked)
      ensures toggleDisabled == old(toggleDisabled) && status == old(status)
    {
      DisplayResults(r.summary, r.links);
      regenerateVisible := true;
    }

    /**
     * `processAssignment(force)` up to `showLoading()`. While a run is in
     * flight it does nothing. Unless forced, a cached record is shown and no
     * run starts. Otherwise a run starts: `isProcessing` is set and the spinner
     * shown. The store is never written here.
     */
    method BeginRun(force: bool) returns (started: bool)
      modifies this
      ensures started <==> !old(isProcessing) && (force || Cached(activeTabUrl).None?)
      ensures old(isProcessing) ==> isProcessing && panel == old(panel) && regenerateVisible == old(regenerateVisible) && trace == old(trace)
      ensures !old(isProcessing) && !started ==>
                !isProcessing && panel == Results(Cached(activeTabUrl).value.summary, Cached(activeTabUrl).value.links)
                && regenerateVisible
                && trace == old(trace) + [Displayed(Cached(activeTabUrl).value.summary, Cached(activeTabUrl).value.links)]
      ensures started ==> isProcessing && panel == Loading && regenerateVisible == old(regenerateVisible) && trace == old(trace)
      ensures toggleChecked == old(toggleChecked) && toggleDisabled == old(toggleDisabled) && status == old(status)
    {
      if isProcessing {
        return false;
      }
      if !force {
        var cached := GetCachedSummary(activeTabUrl);
        if cached.Some? {
          ShowCached(cached.value);
          return false;
        }
      }
      isProcessing := true;
      panel := Loading;
      started := true;
    }

    /**
     * The `try` block's work up to the summariser's answer: the page script
     * first when there is an active tab and scripting, the popup's DOM when
     * that yields nothing, the empty-content check, then the summariser.
     * It changes nothing.
     */
    method AttemptRun(page: Option<Element>, dom: Option<Element>,
                      summarise: AssignmentData -> Result<string, string>) returns (out: Result<Done, string>)
      ensures out == Outcome(activeTab.Some? && canScript, page, dom, summarise)
    {
      var data: Option<AssignmentData> := None;
      if activeTab.Some? && canScript {
        data := PageData(page);
      }
      if data.None? {
        var ex := ExtractAssignmentData(dom);
        if ex.Err? {
          return Err(ex.error);
        }
        data := Some(ex.value);
      }
      if data.value.content == "" {
        return Err(NoContentMessage);
      }
      var answer := summarise(data.value);
      if answer.Err? {
        return Err(answer.error);
      }
      out := Ok(Done(data.value, answer.value));
    }

    /**
     * The success path of `processAssignment`: display, cache write, push to
     * the active tab when messaging exists, and the regenerate button.
     */
    method PublishSummary(d: Done, now: int) returns (pushed: Option<Message>)
      modifies this, storage
      ensures trace == old(trace) + RunEffects(Ok(d), activeTabUrl, storage != null, PushTarget())
      ensures panel == Results(d.summary, d.data.links) && regenerateVisible
      ensures storage != null ==> storage.items == Saved(old(storage.items), activeTabUrl, d.summary, d.data.links, now)
      ensures pushed == (if PushTarget().Some? then Some(RenderMessage(d.summary)) else None)
      ensures isProcessing == old(isProcessing) && toggleChecked == old(toggleChecked)
      ensures toggleDisabled == old(toggleDisabled) && status == old(status)
    {
      ghost var before := trace;
      ghost var w: seq<Effect> := if storage != null then [CacheWritten(SummaryKey(activeTabUrl))] else [];
      ghost var p: seq<Effect> := if PushTarget().Some? then [Pushed(PushTarget().value, RenderMessage(d.summary))] else [];
      trace := trace + [SummaryReady(d.summary)];
      DisplayResults(d.summary, d.data.links);
      assert trace == before + [SummaryReady(d.summary), Displayed(d.summary, d.data.links)];
      SaveSummaryToCache(activeTabUrl, d.summary, d.data.links, now);
      pushed := None;
      if activeTab.Some? && canMessage {
        pushed := Some(RenderMessage(d.summary));
        trace := trace + [Pushed(activeTab.value.id, RenderMessage(d.summary))];
      }
      assert trace == before + [SummaryReady(d.summary), Displayed(d.summary, d.data.links)] + w + p;
      regenerateVisible := true;
    }

    /**
     * The end of `processAssignment`, given the outcome of `AttemptRun`: on
     * success display, cache write, push and the regenerate button; on any
     * failure the error is shown and the toggle unchecked, and the store is
     * left alone. `isProcessing` is cleared in every case. Returns the message
     * pushed to the active tab, if any.
     */
    method FinishRun(out: Result<Done, string>, now: int) returns (pushed: Option<Message>)
      requires isProcessing
      modifies this, storage
      ensures !isProcessing
      ensures toggleDisabled == old(toggleDisabled) && status == old(status)
      ensures trace == old(trace) + RunEffects(out, activeTabUrl, storage != null, PushTarget())
      ensures out.Ok? ==>
                && panel == Results(out.value.summary, out.value.data.links)
                && regenerateVisible && toggleChecked == old(toggleChecked)
                && (storage != null ==> storage.items == Saved(old(storage.items), activeTabUrl, out.value.summary, out.value.data.links, now))
                && pushed == (if PushTarget().Some? then Some(RenderMessage(out.value.summary)) else None)
      ensures out.Err? ==>
                && panel == Failed(ErrorText(out.error))
                && !toggleChecked && regenerateVisible == old(regenerateVisible)
                && (storage != null ==> storage.items == old(storage.items))
                && pushed == None
    {
      isProcessing := false;
      if out.Ok? {
        pushed := PublishSummary(out.value, now);
      } else {
        pushed := None;
        ShowError(ErrorText(out.error));
      }
    }

    /**
     * `processAssignment(force)` from start to end, with the page script's
     * element, the popup's element and the summariser as oracles and `now` the
     * clock when the record is stamped. Nothing happens while a run is in
     * flight; a cache hit shows the cached record and writes nothing; a run
     * that starts ends with `isProcessing` cleared, the effects of its outcome
     * appended in order, and the store written exactly when it succeeded.
     */
    method ProcessAssignment(force: bool, page: Option<Element>, dom: Option<Element>,
                             summarise: AssignmentData -> Result<string, string>, now: int)
      returns (started: bool, pushed: Option<Message>)
      modifies this, storage
      ensures started <==> !old(isProcessing) && (force || old(Cached(activeTabUrl)).None?)
      ensures !old(isProcessing) ==> !isProcessing
      ensures old(isProcessing) ==> isProcessing && panel == old(panel) && trace == old(trace)
      ensures old(isProcessing) ==> toggleChecked == old(toggleChecked) && regenerateVisible == old(regenerateVisible)
      ensures !started ==> pushed == None && (storage != null ==> storage.items == old(storage.items))
      ensures !old(isProcessing) && !started ==>
                panel == Results(old(Cached(activeTabUrl)).value.summary, old(Cached(activeTabUrl)).value.links)
                && trace == old(trace) + [Displayed(old(Cached(activeTabUrl)).value.summary, old(Cached(activeTabUrl)).value.links)]
      ensures !old(isProcessing) && !started ==> regenerateVisible && toggleChecked == old(toggleChecked)
      ensures started ==>
                var o := Outcome(activeTab.Some? && canScript, page, dom, summarise);
                && trace == old(trace) + RunEffects(o, activeTabUrl, storage != null, PushTarget())
                && (storage != null && o.Ok? ==>
                      storage.items == Saved(old(storage.items), activeTabUrl, o.value.summary, o.value.data.links, now))
                && (storage != null && o.Err? ==> storage.items == old(storage.items))
                && (o.Ok? ==> panel == Results(o.value.summary, o.value.data.links)
                              && pushed == (if PushTarget().Some? then Some(RenderMessage(o.value.summary)) else None))
                && (o.Ok? ==> regenerateVisible && toggleChecked == old(toggleChecked))
                && (o.Err? ==> panel == Failed(ErrorText(o.error)) && !toggleChecked && pushed == None)
                && (o.Err? ==> regenerateVisible == old(regenerateVisible))
      ensures toggleDisabled == old(toggleDisabled) && status == old(status)
    {
      pushed := None;
      started := BeginRun(force);
      if started {
        var out := AttemptRun(page, dom, summarise);
        pushed := FinishRun(out, now);
      }
    }

    /**
     * `tryLoadCachedSummaryOrProcess`: shows the cached record if there is one,
     * otherwise starts a run (whose own lookup misses again).
     */
    method TryLoadCachedSummaryOrProcess() returns (started: bool)
      modifies this
      ensures Cached(activeTabUrl).Some? ==>
                !started && isProcessing == old(isProcessing)
                && panel == Results(Cached(activeTabUrl).value.summary, Cached(activeTabUrl).value.links)
                && regenerateVisible
                && trace == old(trace) + [Displayed(Cached(activeTabUrl).value.summary, Cached(activeTabUrl).value.links)]
      ensures Cached(activeTabUrl).None? ==>
                (started <==> !old(isProcessing))
                && (started ==> isProcessing && panel == Loading && regenerateVisible == old(regenerateVisible))
                && (!started ==> panel == old(panel) && regenerateVisible == old(regenerateVisible))
                && trace == old(trace) && isProcessing
      ensures toggleChecked == old(toggleChecked) && toggleDisabled == old(toggleDisabled) && status == old(status)
    {
      var cached := GetCachedSummary(activeTabUrl);
      if cached.Some? {
        ShowCached(cached.value);
        started := false;
      } else {
        started := BeginRun(false);
      }
    }

    /**
     * The toggle's `change` listener: checking it while idle shows the cached
     * summary or starts a run; unchecking it hides the output; checking it
     * while a run is in flight does nothing more.
     */
    method OnToggleChange(checked: bool) returns (started: bool)
      modifies this
      ensures toggleChecked == checked && toggleDisabled == old(toggleDisabled) && status == old(status)
      ensures started <==> checked && !old(isProcessing) && Cached(activeTabUrl).None?
      ensures started ==> isProcessing && panel == Loading && trace == old(trace)
      ensures checked && !old(isProcessing) && Cached(activeTabUrl).Some? ==>
                !isProcessing && regenerateVisible
                && panel == Results(Cached(activeTabUrl).value.summary, Cached(activeTabUrl).value.links)
                && trace == old(trace) + [Displayed(Cached(activeTabUrl).value.summary, Cached(activeTabUrl).value.links)]
      ensures checked && old(isProcessing) ==>
                isProcessing && panel == old(panel) && regenerateVisible == old(regenerateVisible) && trace == old(trace)
      ensures !checked ==>
                isProcessing == old(isProcessing) && panel == Hidden && regenerateVisible == old(regenerateVisible) && trace == old(trace)
    {
      toggleChecked := checked;
      started := false;
      if checked && !isProcessing {
        started := TryLoadCachedSummaryOrProcess();
      } else if !checked {
        HideOutput();
      }
    }

    /** The regenerate button's `click` listener: a forced run, which ignores the cache, unless one is in flight. */
    method OnRegenerateClick() returns (started: bool)
      modifies this
      ensures started <==> !old(isProcessing)
      ensures started ==> isProcessing && panel == Loading
      ensures !started ==> isProcessing && panel == old(panel)
      ensures trace == old(trace) && regenerateVisible == old(regenerateVisible)
      ensures toggleChecked == old(toggleChecked) && toggleDisabled == old(toggleDisabled) && status == old(status)
    {
      started := false;
      if !isProcessing {
        started := BeginRun(true);
      }
    }
  }
}
