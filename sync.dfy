/**
 * The popup and the overlay of the tab it summarises, side by side: a
 * finished run pushes the summary to the open page and leaves it in the
 * store, so a page opened later at the same URL shows the same summary.
 */
module Sync {
  import opened Wrappers
  import opened SummaryCache
  import opened Messaging
  import opened Popup
  import opened ContentScript

  /**
   * The end of a popup run whose attempt produced `out`, delivered to the
   * overlay of the active tab, followed by a fresh load of that page. A run
   * that fails pushes nothing and writes nothing, so both pages show what
   * they showed before.
   */
  method RunThenReload(app: CanvasSummarizer, overlay: Overlay, out: Result<Done, string>, now: int)
    returns (reloaded: Overlay)
    requires app.isProcessing && app.storage != null
    requires overlay.pageKey == SummaryKey(app.activeTabUrl)
    modifies app, app.storage, overlay
    ensures out.Ok? && out.value.summary != "" ==>
              && (app.PushTarget().Some? ==> overlay.shown == Some(out.value.summary))
              && reloaded.shown == Some(out.value.summary)
    ensures out.Ok? && out.value.summary == "" ==> overlay.shown == old(overlay.shown) && reloaded.shown == None
    ensures out.Err? ==>
              && overlay.shown == old(overlay.shown)
              && reloaded.shown == AfterLoad(None, Lookup(old(app.storage.items), overlay.pageKey))
  {
    var pushed := app.FinishRun(out, now);
    if pushed.Some? {
      overlay.OnMessage(pushed.value);
    }
    reloaded := new Overlay(app.activeTabUrl);
    reloaded.LoadCached(app.storage);
    if out.Ok? {
      LoadAfterSave(None, old(app.storage.items), app.activeTabUrl, out.value.summary, out.value.data.links, now);
    }
  }
}
