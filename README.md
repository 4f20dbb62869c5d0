# Attribution engine of the AI tracking system, in Dafny

This project models the attribution engine of an Electron writing assistant and proves
properties about the model. The assistant shows a text editor next to ChatGPT, Google and
custom-URL webviews. The engine records what the writer does in those surfaces (prompts,
searches, visits, copied text), cuts the editor's text into paragraphs, and links every
finished paragraph to the activities of the 15 minutes before it ended.

- `Common.dfy`: `Option`, the `substring(0, cap)` prefix, and the push-then-shift bounded
  buffer. The buffer is proved to be a sliding window over everything ever pushed.
- `Words.dfy`: `countWords` (trim, then split at runs of JavaScript white space). It is
  proved equal to a one-pass counter of maximal non-blank runs.
- `Attribution.dfy`: the `AttributionTracker` class.
  - Its fields `activities`, `paragraphs`, `currentParagraph`, `isTracking` and
    `lastActivityTime` are updated by methods with `modifies` clauses.
  - The pure parts are functions with lemmas: payload truncation, the look-back filter,
    `Math.round` of minutes, the per-kind histogram, the sums and the average.
- `TabContext.dfy`: the tab-click bookkeeping of the renderer (`tabHistory`, `currentTab`,
  `lastTabSwitchTime`) as a class, and `estimatePasteSource` as a function of that state.
- `Renderer.dfy`:
  - the navigation filter `shouldLogNavigation`, and a corrected filter for the two
    mistakes listed under "## Findings";
  - `getSourceFromWebview`;
  - the editor's paragraph-boundary test (`content.split('\n')` ends in two empty lines),
    and the input handler that drives the tracker with it;
  - the 20-entry `recentLogs` buffer.

Conventions:
- Instants are integer milliseconds.
- Ids and the current instant are parameters. One handler call reads the clock once.
- `type` is called `kind`, because `type` is a Dafny keyword.
- Confidences are exact `real`s.

`startParagraph` replaces an open paragraph unconditionally
(attribution/attribution-tracker.js:130-143), and `AttributionTracker.StartParagraph` does
the same.

## Model

| member | source | states |
|---|---|---|
| Common.Prefix | attribution/attribution-tracker.js:74 | `substring(0, cap)` yields the first min(length, cap) characters of the string |
| Common.PushBounded | renderer.js:62-72 | push then one shift: below the cap the element is appended; at the cap the oldest element is dropped; the new element is always last |
| Common.PushBoundedKeepsWindow | renderer.js:613-618 | a buffer holding the newest `cap` of all pushed elements still holds the newest `cap` after one more push (oldest evicted first) |
| Words.Trim | attribution/attribution-tracker.js:236-237 | `trim()` returns a slice of the text with only white space cut on both sides, and it neither starts nor ends with white space |
| Words.SplitCountsRuns | attribution/attribution-tracker.js:237 | on a text that starts and ends with a word, `split(/\s+/)` gives one piece per maximal non-blank run |
| Words.TrimKeepsRuns | attribution/attribution-tracker.js:237 | trimming does not change the number of words |
| Words.SplitAtWhitespace | attribution/attribution-tracker.js:237 | `split(/\s+/)` yields at least one piece and no piece holds white space |
| Words.CountWords | attribution/attribution-tracker.js:235-238 | `countWords` equals the number of maximal runs of non-white-space characters, counted by an independent one-pass scan |
| Words.CountWordsZeroIffBlank | attribution/attribution-tracker.js:236 | `countWords` is 0 exactly for the empty and the all-white-space texts |
| Words.CountWordsBlankExamples | attribution/attribution-tracker.js:235-238 | `""` and `"  "` count 0 words |
| Words.CountWordsExample | attribution/attribution-tracker.js:235-238 | `"a b  c"` counts 3 words: a double space separates like a single one |
| Attribution.ChatGPTPromptData | attribution/attribution-tracker.js:72-80 | prompt capped at 500 and response at 1000 characters (as prefixes); the model is kept; both original lengths are recorded |
| Attribution.SearchData | attribution/attribution-tracker.js:87-93 | query capped at 200 characters as a prefix; the clicked URL (or none) and the search time are kept |
| Attribution.WebsiteVisitData | attribution/attribution-tracker.js:101-108 | title capped at 100 characters as a prefix; URL, duration and visit time are kept |
| Attribution.CopiedTextData | attribution/attribution-tracker.js:116-124 | text capped at 500 and title at 100 characters (as prefixes); `textLength` is the original length; URL and copy time are kept |
| Attribution.Cutoff | attribution/attribution-tracker.js:197 | the cutoff lies exactly `minutes` × 60 000 ms before now, so a non-negative look-back never reaches into the future |
| Attribution.RecentActivities | attribution/attribution-tracker.js:196-203 | the filter keeps an activity iff it is in the log and its timestamp is at or after the cutoff; the result is no longer than the log |
| Attribution.RecentActivitiesCounts | attribution/attribution-tracker.js:199-202 | every in-window activity is kept as many times as it was recorded; out-of-window ones are dropped |
| Attribution.RecentActivitiesInOrder | attribution/attribution-tracker.js:199-202 | the result is an order-preserving subsequence of the log |
| Attribution.RecentActivitiesAppend | attribution/attribution-tracker.js:199-202 | one more activity in the log extends the result by that activity exactly when it lies in the window |
| Attribution.SourceWindowBoundary | attribution/attribution-tracker.js:197-201 | the 15-minute bound is inclusive: 15 and 14 minutes old are linked, 16 minutes old is not |
| Attribution.RoundDiv | attribution/attribution-tracker.js:249 | `Math.round(n / d)` for d > 0 is the integer r with r − ½ ≤ n/d < r + ½ |
| Attribution.RoundDivUnique | attribution/attribution-tracker.js:249 | that bracket admits a single integer |
| Attribution.CalculateDuration | attribution/attribution-tracker.js:246-250 | the duration is the elapsed time in minutes, rounded to the nearest whole minute with halves rounding up |
| Attribution.NewParagraph | attribution/attribution-tracker.js:131-139 | a new paragraph is open (no end time, no sources, no duration), has the given id, content and start time, and both counts are 0 |
| Attribution.UpdatedParagraph | attribution/attribution-tracker.js:149-157 | with nothing open, a new paragraph with counts 0; otherwise the open paragraph with content, `countWords(content)` and the length of the content replaced, all other fields kept |
| Attribution.Finished | attribution/attribution-tracker.js:165-175 | the finished record has end time now, sources equal to the activities of the last 15 minutes, the rounded duration, and all other fields kept |
| Attribution.FindParagraph | attribution/attribution-tracker.js:210-212 | none iff no paragraph has the id; otherwise the first paragraph with that id |
| Attribution.CountOfKind | attribution/attribution-tracker.js:318-320 | the count of a kind is positive iff some activity has that kind, and it is at most the number of activities |
| Attribution.KindHistogram | attribution/attribution-tracker.js:317-320 | the histogram's keys are exactly the kinds present, and each maps to the number of activities of that kind |
| Attribution.CountKinds | attribution/attribution-tracker.js:317-320 | the `forEach` that bumps each activity's kind builds exactly the per-kind histogram |
| Attribution.HistogramTotal | attribution/attribution-tracker.js:315-320 | the `sourceTypes` values sum to `totalActivities` |
| Attribution.TotalWords | attribution/attribution-tracker.js:322 | the `reduce` sum of word counts is at least each paragraph's count, and 0 exactly when every paragraph has no words |
| Attribution.TotalCharacters | attribution/attribution-tracker.js:323 | the `reduce` sum of character counts is at least each paragraph's count, and 0 exactly when every paragraph is empty |
| Attribution.TotalsAppend | attribution/attribution-tracker.js:322-323 | storing one more paragraph adds its word and character counts to the totals |
| Attribution.AverageWords | attribution/attribution-tracker.js:331 | 0 without paragraphs; otherwise the mean of words per paragraph rounded to nearest |
| Attribution.AverageWordsExamples | attribution/attribution-tracker.js:331 | 10 words over 3 paragraphs average 3; no paragraphs average 0 |
| Attribution.AttributionTracker.constructor | attribution/attribution-tracker.js:7-23 | the logs start as the stored ones, nothing is open, and tracking is on |
| Attribution.AttributionTracker.StartTracking | attribution/attribution-tracker.js:28-31 | tracking is on; nothing else changes |
| Attribution.AttributionTracker.StopTracking | attribution/attribution-tracker.js:36-39 | tracking is off; nothing else changes |
| Attribution.AttributionTracker.TrackActivity | attribution/attribution-tracker.js:46-64 | off: returns nothing and leaves the log and last activity time unchanged; on: appends exactly one record (id, kind, now, data) after the unchanged earlier ones and returns it |
| Attribution.AttributionTracker.TrackChatGPTPrompt | attribution/attribution-tracker.js:72-80 | records a `chatgpt_prompt` activity with the capped payload, under the same on/off rule |
| Attribution.AttributionTracker.TrackSearch | attribution/attribution-tracker.js:87-93 | records a `search` activity with the capped payload, under the same on/off rule |
| Attribution.AttributionTracker.TrackWebsiteVisit | attribution/attribution-tracker.js:101-108 | records a `website_visit` activity with the capped payload, under the same on/off rule |
| Attribution.AttributionTracker.TrackCopiedText | attribution/attribution-tracker.js:116-124 | records a `text_copied` activity with the capped payload, under the same on/off rule |
| Attribution.AttributionTracker.StartParagraph | attribution/attribution-tracker.js:130-143 | the slot holds a fresh open paragraph, whatever was open before, and that paragraph is returned |
| Attribution.AttributionTracker.UpdateParagraph | attribution/attribution-tracker.js:149-157 | the slot holds the updated paragraph (new when none was open, with counts left at 0) and stays open |
| Attribution.AttributionTracker.EndParagraph | attribution/attribution-tracker.js:162-189 | with nothing open: returns none, paragraphs unchanged; otherwise appends exactly the finished record, clears the slot and returns that record |
| Attribution.AttributionTracker.GetRecentActivities | attribution/attribution-tracker.js:196-203 | returns the activities at or after now minus m minutes, as specified by `RecentActivities` |
| Attribution.AttributionTracker.GetParagraph | attribution/attribution-tracker.js:210-212 | returns the first stored paragraph with the id, or none |
| Attribution.AttributionTracker.GetAllParagraphs | attribution/attribution-tracker.js:218-220 | returns the paragraph log |
| Attribution.AttributionTracker.GetAllActivities | attribution/attribution-tracker.js:226-228 | returns the activity log |
| Attribution.AttributionTracker.ClearAllData | attribution/attribution-tracker.js:298-307 | both logs are empty and nothing is open |
| Attribution.AttributionTracker.GetStatistics | attribution/attribution-tracker.js:313-333 | both log lengths are reported; the loop-built `sourceTypes` equals the per-kind histogram; word and character sums; the rounded average |
| TabContext.TabTracker.constructor | renderer.js:2-4 | no history, no current tab, no last switch time |
| TabContext.TabTracker.OnTabClick | renderer.js:60-76 | a record from the current tab, including a click on that same tab, is pushed only when a tab was current, with the oldest entry dropped past 10; the history never exceeds 10 and stays the newest 10 switches ever made; after the click, `currentTab` is the target and `lastTabSwitchTime` is now |
| TabContext.SourceMultiplier | renderer.js:575-587 | the factor is 0.9 exactly for `chatgpt`, 1.0 exactly for `google`, 0.8 exactly for `custom` and 0.7 for every other tab |
| TabContext.Decayed | renderer.js:572 | the linear decay is 1 at the switch, 0 at the window's end, and within [0, 1] in between |
| TabContext.Clamp | renderer.js:590 | `Math.max(lo, Math.min(hi, x))` lies in [lo, hi]; it is lo below the range, hi above it, and x inside it |
| TabContext.EstimatePasteSource | renderer.js:537-597 | `Unknown`/0/0 unless the editor tab is current and there is history; otherwise the last switch's `from` and the elapsed time, a confidence in [0.1, 1.0], and 0.3 once more than 30 000 ms have passed |
| TabContext.ConfidenceNonIncreasingInWindow | renderer.js:572-590 | for a fixed last switch within the window, a later paste never gets a higher confidence |
| TabContext.ConfidenceInWindow | renderer.js:572-590 | within 30 000 ms of the switch the confidence is clamp(0.1, 1.0, (1 − elapsed/30000) × factor): 0.1 when that product is below the floor, 1.0 when above the cap |
| TabContext.LatePasteGetsFloor | renderer.js:572-590 | 29 s after leaving a tab with factor 0.7 the product 0.7/30 is clamped up to exactly 0.1 |
| TabContext.ConfidenceUnclamped | renderer.js:572-590 | where no clamping happens, the confidence is (1 − elapsed/30000) times the source's factor |
| TabContext.SourceBiasOrder | renderer.js:575-587 | at equal elapsed time, a source with a larger factor never gets a lower confidence |
| TabContext.MultiplierOrder | renderer.js:575-587 | the factors are ordered google ≥ chatgpt ≥ custom ≥ any other tab |
| TabContext.ConfidenceJumpsAtWindowEdge | renderer.js:563-590 | exactly 30 000 ms after the switch the confidence is the floor 0.1; 1 ms later it is 0.3 |
| TabContext.EstimateScenarios | renderer.js:537-597 | 5 s after leaving google gives 5/6; 1 s after leaving chatgpt gives 0.87; after 40 s, 0.3; away from the editor, `Unknown` |
| Renderer.Includes | renderer.js:507 | `includes` holds iff the needle occurs at some position |
| Renderer.IncludesAny | renderer.js:506-517 | the early-return loop finds a match iff some listed needle occurs |
| Renderer.ShouldLogNavigation | renderer.js:463-524 | false for an unparsable URL; otherwise true iff no listed domain occurs anywhere in the host name and none of the ten literal fragments occurs anywhere in the URL |
| Renderer.SubstringDomainFiltersUnrelatedHosts | renderer.js:506-510 | the substring test filters `www.reddit.com` and `www.microsoft.com` through the entry `t.co` |
| Renderer.ShouldLogNavigationByDomain | renderer.js:463-524 | true iff the URL parses, the host is neither a listed domain nor a subdomain of one, and no fragment occurs in the URL |
| Renderer.InDomainIsSubstring | renderer.js:507 | a host inside a domain contains the domain's name |
| Renderer.ByDomainOnlyDropsFalsePositives | renderer.js:463-524 | every navigation the source logs is still logged; every host inside a listed domain is still filtered; the two hosts above are logged again |
| Renderer.AboutPagesAreLogged | renderer.js:484-485 | the entries `about:blank` and `about:srcdoc` are tested against the host name, which is empty for those pages, so both pages are logged |
| Renderer.ShouldLogNavigationIntended | renderer.js:463-524 | the domain reading, which in addition drops every URL that starts with one of the two `about:` pages |
| Renderer.IntendedDropsAboutPages | renderer.js:484-485 | the intended filter drops `about:blank` and `about:srcdoc` whatever their host name |
| Renderer.IntendedElsewhereByDomain | renderer.js:463-524 | on every other URL the intended filter agrees with the domain reading; it logs everything else the source logs, and it logs the two hosts that the `t.co` entry loses |
| Renderer.SourceFromWebview | renderer.js:527-534 | the result is one of ChatGPT, Google, Custom and Unknown, and it is named exactly for the three known webview ids |
| Renderer.SourceFromWebviewInverse | renderer.js:527-534 | `chatgpt-webview`, `google-webview` and `custom-webview` map to ChatGPT, Google and Custom, and a named source leads back to its webview |
| Renderer.SplitLines | renderer.js:696 | `split('\n')` always yields at least one piece |
| Renderer.SplitLinesRoundTrip | renderer.js:696 | joining the pieces with newlines gives the text back, and no piece holds a newline |
| Renderer.SplitLinesAppendNewline | renderer.js:696 | one more newline adds an empty last piece |
| Renderer.SplitLinesAppendChar | renderer.js:696 | one more non-newline character extends the last piece |
| Renderer.LastLineEmpty | renderer.js:696-697 | the last piece is empty iff the text is empty or ends in a newline |
| Renderer.EndsParagraph | renderer.js:696-697 | the boundary test (more than one piece, the last two empty) holds iff the text ends in two newlines or is a single newline |
| Renderer.OnEditorInput | renderer.js:691-699 | the open paragraph takes the editor text; when the boundary test holds, that paragraph is finished and stored and the slot is cleared; the activity log, the tracking switch and the last activity time are untouched |
| Renderer.RecentLogs.constructor | renderer.js:600-602 | the buffer starts empty |
| Renderer.RecentLogs.OnSaveResult | renderer.js:608-618 | only a successful save appends the entry, dropping the oldest past 20; the buffer never exceeds 20 and stays the newest 20 saved entries |

## Left out

- `localStorage` persistence (`saveActivities`, `saveParagraphs`, `loadData` and the two
  `removeItem` calls in `clearAllData`), because it is I/O. Saves are no-ops; the stored
  logs are constructor parameters.
- `Date.now()`/`Math.random()` ids, the ISO and `toLocaleString('ko-KR')` renderings of
  instants, and the `localTime` field, because they are clock and formatting I/O. Ids and
  instants are parameters, and timestamps are milliseconds.
- A handler that reads the clock several times during one call is modelled with a single
  instant, so e.g. `searchTime` equals the activity's timestamp.
- Console logging, the DOM, event listeners, timers, the async `saveLog` round trip and
  `updateLogStatus`, because these are I/O and UI wiring.
- `new URL(url)` parsing, because it is a platform parser. Its host name (or its failure)
  is an input to `ShouldLogNavigation`.
- Default parameter values (`model = 'GPT-4'`, `url = null`, `title = ''`, `duration = 0`,
  `initialContent = ''`, `minutes = 15`), because they are syntax. Callers pass these values explicitly.
- `countWords`' guard against `null`/`undefined` text, because the model's text is always
  a string (the empty-string case is modelled).
- JavaScript strings are UTF-16 code units and Dafny strings hold Unicode scalar values.
  Lengths and caps therefore differ for characters outside the Basic Multilingual Plane.
- `Attribution.Statistics`: `sourceTypes` is a map, so keys that collide with
  `Object.prototype` members in JavaScript are not modelled.
- `TabContext.TabTracker.OnTabClick`: the clicked tab's `data-tab` value is a string.
  `getAttribute` returns null for a tab without that attribute, which would make
  `currentTab` null again. Every tab in the page carries the attribute, so this case is
  not modelled.
- `TabContext.EstimatePasteSource`: confidence uses exact reals, not IEEE doubles, so
  rounding in `1 - t/30000` and in the factor product is not captured.
- Live-object aliasing: `startParagraph` returns the paragraph object that later
  `updateParagraph` calls mutate (attribution/attribution-tracker.js:142, 153-155), and
  `getAllParagraphs`/`getAllActivities` return the tracker's own arrays
  (attribution/attribution-tracker.js:218-228). The model returns values, so a caller's
  later writes through such a reference, and its view of later updates, are not captured.
- `Attribution.AttributionTracker.TrackActivity`: a caller-built `data` object is a
  `Fields` map whose values are strings, so numeric fields such as those the renderer
  passes (renderer.js:716, 736, 739-740) are held in their string form.
- `Renderer.RecentLogs.OnSaveResult`: a log entry keeps only its source, action and
  content fields, because the buffer's behaviour does not depend on the others.

## Findings

| source | as written | input that shows it | evidently intended | confidence | as-written member | corrected member |
|---|---|---|---|---|---|---|
| renderer.js:506-510 | a navigation is dropped when the host name contains a listed domain anywhere as a substring | host `www.reddit.com` contains `t.co` at index 9, and `www.microsoft.com` contains it at index 12, so ordinary visits to those sites are never logged | drop the host only when it is a listed domain or a subdomain of one (equal, or ending in `.` + domain) | medium, not executed | Renderer.SubstringDomainFiltersUnrelatedHosts | Renderer.ByDomainOnlyDropsFalsePositives |
| renderer.js:484-485 | `about:blank` and `about:srcdoc` are list entries compared against the host name | `new URL("about:blank").hostname` is the empty string, which contains no listed entry, so `about:blank` and `about:srcdoc` navigations are logged | drop the `about:` pages by testing those entries against the URL itself | medium, not executed | Renderer.AboutPagesAreLogged | Renderer.IntendedDropsAboutPages |
