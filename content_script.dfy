/**
 * The overlay the content script keeps on an assignment page: one
 * `aside#rca-summary-container` whose content element shows the last summary
 * rendered. On load it shows the cached summary for the page's own URL; after
 * that it shows whatever summary the popup pushes.
 */
module ContentScript {
  import opened Wrappers
  import opened SummaryCache
  import opened Messaging
  import opened Links

  /** `data && data.summary`: a cached record is rendered when it exists and its summary is non-empty. */
  predicate RendersCached(data: Option<Record>)
  {
    data.Some? && data.value.summary != ""
  }

  /** `msg.type === 'RCA_RENDER_SUMMARY' && msg.summary` */
  predicate RendersMessage(msg: Message)
  {
    msg.kind == RenderSummaryType && msg.summary != ""
  }

  /** The overlay's content after the page-load read found `data`: `None` is a page without the overlay. */
  function AfterLoad(shown: Option<string>, data: Option<Record>): Option<string>
  {
    if RendersCached(data) then Some(data.value.summary) else shown
  }

  /** The overlay's content after the listener received `msg`. */
  function AfterMessage(shown: Option<string>, msg: Message): Option<string>
  {
    if RendersMessage(msg) then Some(msg.summary) else shown
  }

  /** A message shows its summary exactly when it is a render request with a non-empty summary; anything else changes nothing. */
  lemma AfterMessageShows(shown: Option<string>, msg: Message)
    ensures RendersMessage(msg) ==> AfterMessage(shown, msg) == Some(msg.summary)
    ensures !RendersMessage(msg) ==> AfterMessage(shown, msg) == shown
    ensures AfterMessage(shown, msg) != shown ==> msg.kind == RenderSummaryType && msg.summary != ""
  {
  }

  /** The popup's push is a render request: it is shown exactly when the summary is non-empty. */
  lemma PushedSummaryShown(shown: Option<string>, summary: string)
    ensures RendersMessage(RenderMessage(summary)) <==> summary != ""
    ensures summary != "" ==> AfterMessage(shown, RenderMessage(summary)) == Some(summary)
  {
  }

  /** Later render requests replace earlier ones, and receiving the same message twice is receiving it once. */
  lemma LastMessageWins(shown: Option<string>, m1: Message, m2: Message)
    ensures RendersMessage(m2) ==> AfterMessage(AfterMessage(shown, m1), m2) == Some(m2.summary)
    ensures AfterMessage(AfterMessage(shown, m1), m1) == AfterMessage(shown, m1)
  {
  }

  /** Right after the popup saved a non-empty summary for a URL, the page at that URL shows it on load. */
  lemma LoadAfterSave(shown: Option<string>, items: map<string, Record>, url: string,
                      summary: string, links: seq<Link>, now: int)
    ensures AfterLoad(shown, Lookup(Saved(items, url, summary, links, now), SummaryKey(url))) ==
            if summary != "" then Some(summary) else shown
  {
    SaveThenGet(items, url, summary, links, now);
  }

  /** The content script on one page. */
  class Overlay {
    /** `STORAGE_PREFIX + window.location.href` */
    const pageKey: string
    /** The overlay's content element: `None` while the page has no overlay. */
    var shown: Option<string>

    /** The script starts on a page with no overlay; its key is the key the popup uses for that URL. */
    constructor (location: string)
      ensures pageKey == SummaryKey(location) && UrlOfKey(pageKey) == location
      ensures shown == None
    {
      pageKey := Prefix + location;
      shown := None;
    }

    /** `createContainer`: an existing overlay is reused; a new one has an empty content element. */
    method CreateContainer()
      modifies this
      ensures old(shown).Some? ==> shown == old(shown)
      ensures old(shown).None? ==> shown == Some("")
    {
      if shown.None? {
        shown := Some("");
      }
    }

    /** `renderSummary(html)`: the overlay exists afterwards and its content is `html`. */
    method RenderSummary(html: string)
      modifies this
      ensures shown == Some(html)
    {
      CreateContainer();
      shown := Some(html);
    }

    /** The close button: `el.remove()`. */
    method Close()
      modifies this
      ensures shown == None
    {
      shown := None;
    }

    /** The page-load read: nothing happens without a storage API or a non-empty cached summary. */
    method LoadCached(storage: LocalStorage?)
      modifies this
      ensures shown == AfterLoad(old(shown), if storage == null then None else Lookup(storage.items, pageKey))
    {
      if storage != null {
        var data := storage.Get(pageKey);
        if data.Some? && data.value.summary != "" {
          RenderSummary(data.value.summary);
        }
      }
    }

    /** The runtime-message listener. */
    method OnMessage(msg: Message)
      modifies this
      ensures shown == AfterMessage(old(shown), msg)
    {
      if msg.kind == RenderSummaryType && msg.summary != "" {
        RenderSummary(msg.summary);
      }
    }
  }
}
