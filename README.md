# Canvas RCA assignment summariser: a Dafny model of its summary cache and its clients

The extension summarises an assignment page of a learning platform (Canvas
and similar). The popup controller `CanvasSummarizer` decides whether the
active tab is an assignment page and extracts the assignment's text and
external links. It passes them to a summariser and shows the result. It
keeps the result in `chrome.storage.local` under `summary_<url>` and pushes
it to the page. A content script on the page shows the cached summary in an
overlay and replaces it when the popup pushes a new one. A separate
maintenance routine, `cleanupOldSummaries`, evicts old and surplus summaries.

The model has one module per concern:

- `SummaryCache`: the record `{summary, links, ts}`, the key `summary_` +
  URL, and the store, a class `LocalStorage` over a `map<string, Record>`.
  Each get, set and remove is one atomic step.
- `Popup`: the controller as a class whose fields are the ones its methods
  update: `isProcessing`, the toggle's checked and disabled flags, the
  status line, the output panel and the regenerate button. A ghost `trace`
  records the externally visible effects in order. `processAssignment` is
  split at its awaits:
  - `BeginRun` is the guard and the cache short-circuit;
  - `AttemptRun` is extraction and the summariser;
  - `FinishRun` is display, cache write, push and the `finally`.

  Handlers can therefore be called between the parts while a run is in flight.
  `ProcessAssignment` composes the three into one uninterrupted run.
- `Links`: `isExternalLink`, and two link collectors. `extractExternalLinks`
  is a method with a loop, proved against the function `ExternalLinks`. The
  page script's map-and-filter is `PageLinks`.
- `Sanitizer` and `Strings`: `sanitizeContent` as the composition of its
  four steps, over the exact ECMAScript whitespace set.
- `Topics`: `extractKeyTopics`.
- `Environment`: the platform and assignment-page tests on an already parsed
  hostname and pathname, and the toggle decision.
- `Messaging`: the `RCA_RENDER_SUMMARY` message.
- `ContentScript`: the overlay as a class with its page key and an abstract
  container state, `None` (absent) or `Some(content)`.
- `Maintenance`: `cleanupOldSummaries`. The removal sets are computed by
  functions: namespace filter, age filter, stable newest-first sort and
  JavaScript `slice`. The removals are applied to the store by a loop.
- `Sync`: one finished popup run seen from the page: the pushed summary
  appears in the open overlay, and a page loaded later at the same URL
  shows it from the store.

Oracles are parameters:
- the summariser's answer;
- the element the page script found;
- the element the popup's own DOM yields;
- the result of `new URL(...)`;
- the clock reading `now`;
- the order in which the store lists its entries.

Two behaviours of the code that the model keeps as written:

- The size step of `cleanupOldSummaries` compares `pairs.length` with
  `maxEntries`. `pairs` is taken before the age step and is never shortened
  by it (path/to/popup.js:8 and path/to/popup.js:17). Entries that have
  expired therefore still count toward the limit. So the size step can remove
  an entry even when only `maxEntries` or fewer survive the age step.
  `Maintenance.CountTakenBeforeAgePruning` exhibits such a store.
- `Links.PageLinks`, the page script's map-and-filter (popup.js:305-307),
  keeps every external anchor in document order, duplicates included.
  `Links.ExternalLinks`, the popup-side collector, keeps only the first
  anchor of each URL.

## Model

| member | source | states |
|---|---|---|
| SummaryCache.SummaryKey | popup.js:585-601 | the key is the prefix `summary_` followed by the URL verbatim |
| SummaryCache.UrlOfKeyRoundTrip | contentScript.js:7-8 | the URL can be read back from its key |
| SummaryCache.SummaryKeyOfUrl | contentScript.js:7-8 | every namespaced key is the key of the URL that follows the prefix |
| SummaryCache.SummaryKeyInjective | popup.js:585-601 | two URLs share a key exactly when they are equal |
| SummaryCache.Lookup | popup.js:593-601 | the record under a key, or nothing; its behaviour after a save is stated by `SaveThenGet` and `SaveOtherUrl` |
| SummaryCache.Saved | popup.js:585-591 | the store after a save; its properties are stated by `LastWriteWins` and `SaveIsolated` |
| SummaryCache.SaveThenGet | popup.js:585-601 | a read right after a save returns the saved summary, links and time stamp |
| SummaryCache.LastWriteWins | popup.js:585-591 | a second save for the same URL replaces the first entirely |
| SummaryCache.SaveIsolated | popup.js:585-591 | a save changes no other key |
| SummaryCache.SaveOtherUrl | popup.js:585-601 | a save for one URL is invisible to reads for any other URL |
| SummaryCache.LocalStorage.constructor | popup.js:585-601 | the store starts with the given contents |
| SummaryCache.LocalStorage.Get | popup.js:593-601 | the stored record, or nothing for a missing key |
| SummaryCache.LocalStorage.Set | popup.js:585-591 | the key now maps to the value; nothing else changes |
| SummaryCache.LocalStorage.Remove | path/to/popup.js:14 | the key is gone; nothing else changes; a missing key is no error |
| SummaryCache.LocalStorage.GetAll | path/to/popup.js:6-8 | lists every entry of the store exactly once, in some order |
| Popup.CanvasSummarizer.GetCachedSummary | popup.js:593-601 | the record under the URL's key; nothing without a store |
| Popup.CanvasSummarizer.SaveSummaryToCache | popup.js:585-591 | the store maps the URL's key to the stamped record; without a store nothing changes; no controller state changes |
| Popup.CanvasSummarizer.constructor | popup.js:7-69 | the state after `init()` has run `fetchActiveTabInfo` (popup.js:34-36) and before `checkCanvasEnvironment`: the active tab, when there is one, and `activeTabUrl` come from the same tab (popup.js:59-60); idle, output hidden, no effects yet; the toggle starts unchecked and enabled, which is an assumption about the popup's markup, not something the constructor sets |
| Popup.CanvasSummarizer.BeginRun | popup.js:215-228 | a run starts exactly when none is in flight and it is forced or the cache misses; a cache hit shows the cached summary and links and the regenerate button without starting a run; while a run is in flight nothing changes |
| Popup.CanvasSummarizer.AttemptRun | popup.js:230-245 | the outcome is the page script's data when it was used and returned data, else the popup's DOM; empty content fails with "No assignment content found"; otherwise the summariser's answer |
| Popup.PageData | popup.js:267-326 | the page script's element with its content sanitised and its links from `PageLinks`; stated through `Outcome` by `OutcomeOk` and `OutcomeErr` |
| Popup.DomData | popup.js:328-349 | the popup's own element, sanitised, with its links from `ExternalLinks`; stated by `ExtractAssignmentData` and, through `Outcome`, by `OutcomeOk` |
| Popup.Extracted | popup.js:230-243 | the page script's data when used and found, else the popup's DOM, else "Assignment content not found"; stated through `Outcome` by `OutcomeOk` and `OutcomeErr` |
| Popup.Outcome | popup.js:230-245 | the `try` block up to the summariser's answer; its properties are stated by `OutcomeOk`, `OutcomeErr` and `BlankPageNotSummarised` |
| Popup.RunEffects | popup.js:245-256 | the effects a finished run adds; their order and their absence on failure are stated by `SuccessOrder` and `FailureHasNoSideEffects` |
| Popup.OutcomeOk | popup.js:230-245 | a successful run summarised exactly the extracted data, whose content is non-empty, at most 4000 characters and single-spaced, and whose links are all external |
| Popup.OutcomeErr | popup.js:230-245 | a run fails only for a missing element, empty content, or a summariser failure carrying its message |
| Popup.BlankPageNotSummarised | popup.js:232-243 | an all-whitespace page fails with "No assignment content found", whatever the popup's DOM and the summariser would give |
| Popup.CanvasSummarizer.PublishSummary | popup.js:245-252 | display, then the cache write when there is a store, then the push to the active tab when messaging exists; the store holds the new record; the regenerate button shows |
| Popup.CanvasSummarizer.FinishRun | popup.js:245-260 | `isProcessing` is cleared on every path; success displays, writes and pushes in that order; failure shows the error, unchecks the toggle, and neither writes the store nor pushes |
| Popup.FailureHasNoSideEffects | popup.js:241-256 | a failed run's only effect is the error message: no cache write and no push |
| Popup.SuccessOrder | popup.js:245-252 | in a successful run the summary comes first, then the display, then the cache write before the push; the write is under the URL's key; the push carries the summary; each happens exactly when a store or a push target exists |
| Popup.ErrorText | popup.js:254-256 | the error message shown is never empty and is the error's own message when it has one |
| Popup.CanvasSummarizer.ProcessAssignment | popup.js:215-261 | a whole run: it starts exactly when none is in flight and it is forced or the cache misses; a call while a run is in flight changes neither the panel, the toggle, the regenerate button nor the effects; otherwise it ends idle; a cache hit shows the cached summary and the regenerate button, leaves the toggle alone and writes nothing; a started run adds exactly `RunEffects` of its `Outcome`, writes the summariser's answer under the URL's key only on success, and pushes it only on success when a push target exists; a success also shows the regenerate button and leaves the toggle alone; a failure shows the error, unchecks the toggle and leaves the regenerate button as it was |
| Popup.CanvasSummarizer.TryLoadCachedSummaryOrProcess | popup.js:197-205 | a cache hit shows the cached summary and links and the regenerate button without starting a run; otherwise a run starts unless one is in flight |
| Popup.CanvasSummarizer.OnToggleChange | popup.js:72-79 | checking while idle shows the cached summary or starts a run; checking while busy does nothing more; unchecking hides the output |
| Popup.CanvasSummarizer.OnRegenerateClick | popup.js:82-86 | a forced run starts exactly when none is in flight; the cache is not consulted |
| Popup.CanvasSummarizer.CheckCanvasEnvironment | popup.js:89-104 | the toggle is enabled with "Ready to summarize assignment" exactly on an assignment page of a recognised platform; otherwise it is disabled and unchecked, the output hidden, and the first failing test named |
| Popup.CanvasSummarizer.EnableToggle | popup.js:176-179 | the toggle is enabled and the message shown as information; nothing else changes |
| Popup.CanvasSummarizer.DisableToggle | popup.js:181-186 | the toggle is disabled and unchecked, the message shown as a warning, and the output hidden |
| Popup.CanvasSummarizer.ShowError | popup.js:567-576 | the error panel shows the message and the toggle is unchecked |
| Popup.CanvasSummarizer.HideOutput | popup.js:578-583 | the output panel is hidden; nothing else changes |
| Popup.CanvasSummarizer.DisplayResults | popup.js:502-525 | the panel shows the summary with its links |
| Popup.CanvasSummarizer.ShowCached | popup.js:199-201 | the panel shows the cached summary and links, and the regenerate button is visible |
| Popup.CanvasSummarizer.ExtractExternalLinks | popup.js:351-374 | the loop computes exactly `ExternalLinks` of the anchors |
| Popup.CanvasSummarizer.ExtractAssignmentData | popup.js:328-349 | fails with "Assignment content not found" exactly when no element was found; otherwise the sanitised text, the markup and the external links |
| Environment.UrlToParse | popup.js:106-110 | the first non-empty candidate among the argument, the active tab's URL and the window's location, and the location when both others are empty |
| Environment.Decide | popup.js:89-104 | enabled exactly when both tests pass; a disabled toggle names the platform test when that fails, otherwise the assignment test |
| Environment.ToLowerUnchanged | popup.js:110 | lower-casing leaves text without upper-case letters unchanged |
| Environment.DetectCanvasEnvironment | popup.js:106-127 | the platform test; its properties are stated by `HostWithPatternRecognised` and `UnparsableDisabled` |
| Environment.IsAssignmentPage | popup.js:136-148 | the assignment-page test; its property is stated by `AssignmentPathRecognised` |
| Environment.PatternsLowerCase | popup.js:113-123 | every platform pattern is already lower case, so the case-insensitive match can find it |
| Environment.HostWithPatternRecognised | popup.js:113-123 | a hostname containing any platform pattern, with any text around it, is a platform page |
| Environment.AssignmentPathRecognised | popup.js:136-148 | a path containing `/assignments/` anywhere is an assignment page, whatever the hostname |
| Environment.PlatformAssignmentEnabled | popup.js:89-148 | an assignment path on a hostname of any recognised platform enables the toggle with "Ready to summarize assignment" |
| Environment.UnparsableDisabled | popup.js:124-127 | a URL that does not parse disables the toggle as "Not on a Canvas page" |
| Links.IsExternalLink | popup.js:376-404 | `isExternalLink`; its properties are stated by `IsExternalLinkIff`, `FragmentsAreInternal`, `CourseLinkIsInternal` and `RelativePathIsInternal` |
| Links.LinkOf | popup.js:360-364 | an anchor's entry: its text trimmed, or the href when that is empty; its use is stated by `StepAppends` and `ExternalLinksCorrect` |
| Links.ExternalLinks | popup.js:351-374 | the popup-side collector; its properties are stated by `ExternalLinksCorrect`, `ExternalLinksPrefix` and `ExternalLinksStep` |
| Links.PageLinks | popup.js:305-307 | the page script's map-and-filter; its properties are stated by `PageLinksExternal` |
| Links.IsExternalLinkIff | popup.js:376-404 | an href is external exactly when it is non-empty, contains no internal pattern, and starts with `http://` or `https://` or contains a dot and does not start with `/` |
| Links.FragmentsAreInternal | popup.js:390-398 | an href with `#`, `mailto:` or `tel:` is never external |
| Links.CourseLinkIsInternal | popup.js:380-398 | every href containing `/courses/` is internal, whatever its scheme |
| Links.RelativePathIsInternal | popup.js:401-403 | every href starting with `/` is not external |
| Links.FirstIndexPrefix | popup.js:355-372 | the first anchor with an href in a prefix is the first one in the whole sequence |
| Links.ExternalLinksCorrect | popup.js:351-374 | the collected links are all external, have distinct URLs, are each the entry of the first anchor with that URL (text trimmed, falling back to the href), follow document order, and cover every external anchor |
| Links.ExternalLinksPrefix | popup.js:355-372 | one more anchor extends the collected links by one loop step |
| Links.ExternalLinksStep | popup.js:355-372 | one loop step keeps the collected links correct for the longer prefix |
| Links.StepAppends | popup.js:358-370 | a new external URL is appended as its anchor's entry |
| Links.StepSkips | popup.js:358-370 | an internal or repeated URL leaves the links unchanged |
| Links.PageLinksExternal | popup.js:305-307 | the page script's links are no more than the anchors, all external, and include every external anchor's entry |
| Sanitizer.CollapseSpaces | popup.js:409 | `replace(/\s+/g, ' ')`; its result on every input is fixed by `CollapseSpacesText` (text without whitespace is kept) and `CollapseSpacesRun` (each whitespace run becomes one space), with `CollapseSpacesShape` for its shape |
| Sanitizer.CollapseSpacesText | popup.js:409 | text without whitespace is kept exactly as written |
| Sanitizer.CollapseSpacesShape | popup.js:409 | the result is single-spaced, empty exactly for empty input, starts with a space exactly when the input starts with whitespace, and keeps the non-whitespace text |
| Sanitizer.CollapseSpacesRun | popup.js:409 | a whitespace run between non-whitespace text becomes exactly one space in its place, and the text on either side is collapsed independently |
| Sanitizer.CollapseBlankLines | popup.js:410 | `replace(/\n\s*\n/g, '\n')`; its properties are stated by `SecondReplaceIsNoOp` and `BlankLinesMerged` |
| Sanitizer.Sanitize | popup.js:406-413 | `sanitizeContent`; its properties are stated by `SanitizeShape`, `SanitizeKeepsText` and `SanitizeEmptyIff` |
| Sanitizer.Truncate | popup.js:412 | a prefix of the input: the input itself when it has at most 4000 characters, otherwise its first 4000 characters |
| Sanitizer.TrimSingleSpaced | popup.js:411 | trimming single-spaced text keeps it single-spaced with no space at either end |
| Sanitizer.CleanKeepsText | popup.js:409-411 | collapsing and trimming keep all non-whitespace text and empty only all-whitespace input |
| Sanitizer.SanitizeShape | popup.js:406-413 | the sanitised text is at most 4000 characters, single-spaced, and does not start with a space |
| Sanitizer.SanitizeKeepsText | popup.js:406-413 | the sanitised text is a prefix of the input's text with whitespace removed, and all of it, with no trailing space, when it fits |
| Sanitizer.SanitizeEmptyIff | popup.js:406-413 | the sanitised text is empty exactly when the input is all whitespace |
| Sanitizer.SecondReplaceIsNoOp | popup.js:409-410 | after the first replacement the blank-line replacement never changes the text |
| Sanitizer.BlankLinesMerged | popup.js:410 | on its own, the blank-line replacement merges a blank line |
| Strings.ContainsIff | popup.js:396-403 | `includes` holds exactly when the pattern occurs at some position |
| Strings.TrimShape | popup.js:411 | `trim()` keeps all non-whitespace text, leaves no whitespace at either end, and is empty exactly for all-whitespace input |
| Topics.Found | popup.js:495-497 | the filter keeps exactly the keywords that occur, and no more of them than the list has |
| Topics.ExtractKeyTopics | popup.js:492-500 | `extractKeyTopics`; its properties are stated by `KeyTopicsDefault`, `KeyTopicsFirstTwo`, `KeyTopicsOne` and `NoRepeat` |
| Topics.KeyTopicsDefault | popup.js:492-500 | "academic work" is named exactly when no keyword occurs |
| Topics.KeyTopicsFirstTwo | popup.js:492-500 | with two or more keywords present, the topics are the first two in list order joined by " and " |
| Topics.KeyTopicsOne | popup.js:492-500 | a single keyword present is the whole topic |
| Topics.NoRepeat | popup.js:494-497 | no keyword is named twice |
| Messaging.RenderMessage | popup.js:249-250 | the push is a render request carrying the summary |
| ContentScript.Overlay.constructor | contentScript.js:7-8 | the page key is the popup's key for the page's URL, and the URL can be read back from it; no overlay yet |
| ContentScript.Overlay.CreateContainer | contentScript.js:11-14 | an existing overlay is reused with its content; otherwise one with empty content appears |
| ContentScript.Overlay.RenderSummary | contentScript.js:57-60 | the overlay exists and shows exactly the new content |
| ContentScript.Overlay.Close | contentScript.js:40 | the overlay is gone |
| ContentScript.Overlay.LoadCached | contentScript.js:67-73 | the cached summary is shown exactly when a store exists and holds a record with a non-empty summary for the page; otherwise nothing changes |
| ContentScript.Overlay.OnMessage | contentScript.js:77-81 | a render request with a non-empty summary is shown; any other message changes nothing |
| ContentScript.AfterLoad | contentScript.js:67-74 | the overlay after the load-time lookup; stated by `LoadCached` and `LoadAfterSave` |
| ContentScript.AfterMessage | contentScript.js:77-81 | the overlay after a message; stated by `OnMessage`, `AfterMessageShows` and `LastMessageWins` |
| ContentScript.AfterMessageShows | contentScript.js:77-81 | a message changes the overlay only when it is a render request with a non-empty summary, and then shows that summary |
| ContentScript.PushedSummaryShown | contentScript.js:78 | the popup's push is shown exactly when its summary is non-empty |
| ContentScript.LastMessageWins | contentScript.js:77-81 | a later render request replaces an earlier one, and a repeated message is idempotent |
| ContentScript.LoadAfterSave | contentScript.js:67-73 | right after the popup saved a non-empty summary for a URL, a page at that URL shows it on load |
| Sync.RunThenReload | popup.js:245-252 | after a finished run the open overlay shows a pushed non-empty summary, and a page reloaded at the same URL shows it from the store; a failed run changes neither page |
| Maintenance.Cutoff | path/to/popup.js:4 | the cutoff is `days` whole days of milliseconds before `now` |
| Maintenance.Filter | path/to/popup.js:8-9 | keeps exactly the matching entries, never more of them, and keeps keys distinct |
| Maintenance.Namespaced | path/to/popup.js:8-9 | the `summary_` filter; its properties are stated by `Filter` and `NamespacedKeepsAll` |
| Maintenance.Expired | path/to/popup.js:13 | `v.ts && v.ts < cutoff`; its use is stated by `ExpiredKeysExact` and `CleanupRemovesExpired` |
| Maintenance.NamespacedKeepsAll | path/to/popup.js:8-9 | entries already in the namespace all pass the filter |
| Maintenance.NewestFirst | path/to/popup.js:19 | the newest-first sort; its properties are stated by `NewestFirstSameElements`, `NewestFirstOrdered`, `NewestFirstDistinct` and `NewestFirstStable` |
| Maintenance.NewestFirstSameElements | path/to/popup.js:19 | the sort keeps the same entries |
| Maintenance.NewestFirstOrdered | path/to/popup.js:19 | the sort puts larger time stamps first, a missing one counting as 0 |
| Maintenance.NewestFirstDistinct | path/to/popup.js:19 | the sort keeps keys distinct |
| Maintenance.NewestFirstStable | path/to/popup.js:19 | the sort is stable: entries with the same time stamp keep their order |
| Maintenance.Slice | path/to/popup.js:20 | `slice(start)` is a suffix of the entries, of length `n - start` for a start in range and counted from the end for a negative one |
| Maintenance.ExpiredKeys | path/to/popup.js:12-14 | the age step's removals; stated by `ExpiredKeysExact` |
| Maintenance.OverflowKeys | path/to/popup.js:16-21 | the size step's removals; stated by `OverflowKeysTail` and `CleanupOverflowExact` |
| Maintenance.Cleaned | path/to/popup.js:8-21 | the store after a pass; its properties are stated by `CleanupOnlyNamespace`, `CleanupRemovesExpired`, `CleanupWithoutOverflow`, `CleanupBound`, `CleanupKeepsNewest` and `CleanupIdempotent` |
| Maintenance.ExpiredKeysExact | path/to/popup.js:12-14 | the age step removes exactly the namespaced entries whose time stamp is set and before the cutoff |
| Maintenance.CleanupOnlyNamespace | path/to/popup.js:8-21 | the pass only removes entries, and every key outside the namespace keeps its record |
| Maintenance.CleanupRemovesExpired | path/to/popup.js:12-14 | no expired namespaced entry survives |
| Maintenance.CleanupWithoutOverflow | path/to/popup.js:16-17 | with at most `maxEntries` namespaced entries before the pass, exactly the expired ones go and undated ones stay |
| Maintenance.CleanupBound | path/to/popup.js:12-21 | after a pass at most `maxEntries` namespaced entries remain |
| Maintenance.CleanupKeepsNewest | path/to/popup.js:18-21 | an entry removed without having expired is no newer than any namespaced entry that remains |
| Maintenance.CleanupOverflowExact | path/to/popup.js:17-21 | over the limit with nothing expired, exactly `maxEntries` namespaced entries remain |
| Maintenance.OverflowKeysTail | path/to/popup.js:17-21 | over the limit the size step removes the sorted entries past position `maxEntries` |
| Maintenance.CleanupIdempotent | path/to/popup.js:12-21 | a second pass with the same clock and limit changes nothing, whatever its enumeration order |
| Maintenance.RemoveEach | path/to/popup.js:14 | the loop removes exactly the keys of the given entries |
| Maintenance.CleanupOldSummaries | path/to/popup.js:2-24 | the store ends up as its contents less the expired and overflow keys of the enumeration it listed; without a store nothing happens |
| Maintenance.DefaultWeekScenario | path/to/popup.js:2-21 | with the default week, a summary eight days old is removed while one from yesterday and a foreign key stay |
| Maintenance.OverflowOfThree | path/to/popup.js:17-21 | of three namespaced entries newest first, a limit of two removes the last |
| Maintenance.CountTakenBeforeAgePruning | path/to/popup.js:8-21 | the size test counts entries before the age step, so an undated entry is removed as overflow although only two entries survive age pruning |

## Left out

- The summariser `callLLMAPI` and the canned `getMockResponse` (popup.js:415-490) are not modelled. They do HTTP, build the prompt text and run a timer, so the summariser appears as an oracle `AssignmentData -> Result<string, string>`. `extractKeyTopics`, which only the canned response uses, is modelled on its own.
- `fetchActiveTabInfo` (popup.js:41-69) and the `chrome.scripting.executeScript` call are browser APIs. The active tab, its URL and the availability of the scripting and messaging APIs are constructor parameters. The page script's result is an oracle: the found element, or nothing.
- `detectAssignmentContent` and the selector searches in both extractors (popup.js:155-174, popup.js:280-293) are DOM queries. This covers their 20-character text test. The element found, if any, is an oracle, given as its text, its markup and its anchors in document order.
- Links.PageLinks: the page script reads `a.href`, which the browser resolves to an absolute URL. The model filters the anchor's href as given.
- `new URL(...)` parsing is foreign. Its result, a hostname and a pathname or nothing when it throws, is a parameter of `CheckCanvasEnvironment`.
- `displayLinks`, `formatSummary`, `showLoading`, `hideLoading`, the status line's CSS class, the overlay's styling and header, and MathJax typesetting are presentation. The model keeps each panel's abstract content only.
- The `setInterval` URL polling at the end of popup.js (popup.js:610-621) is timer code and is not modelled. Its callback runs every second and records a changed URL in `currentUrl`. The delayed re-check it schedules does nothing, because `window.canvasSummarizer` is never assigned.
- Asynchronous interleavings are concurrency and are not modelled. This covers the awaits inside `processAssignment`, the gap between the cache lookup and setting `isProcessing`, unawaited `remove` and `sendMessage` calls, and races between popup and page. Each store operation is one atomic step, and the run is split into the three methods above.
- Sanitizer.Truncate: counts characters, where `substring` counts UTF-16 code units.
- Strings.ToLower: lower-cases the ASCII letters only; JavaScript's Unicode case mapping is not modelled.
- Maintenance.NewestFirst: the in-place `sort` of `pairs` is modelled by value, as a stable insertion sort. The aliasing of `pairs` by the sort is not observable afterwards.
- The order of `Object.entries` is not fixed by the model. Every cleanup lemma holds for any enumeration of the store.
- Maintenance.CleanupBound and Maintenance.CleanupIdempotent: stated for `maxEntries >= 0` only. With a negative limit, `slice` counts from the end and the bound does not hold.
- Records that are not objects are not modelled. A missing `links` reads as the empty list and a missing `ts` as 0, which is how the code treats those fields.
- The call `await this.cleanupOldSummaries()` in `init` exists only as a comment in the fragment. `cleanupOldSummaries` is therefore modelled as a standalone operation on the store.
