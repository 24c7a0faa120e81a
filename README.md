# Uptime monitor: dashboard list, probe endpoint and dialogs in Dafny

This project models the logic of a small website uptime monitor written in
TypeScript (Next.js and React). A user adds URLs to a dashboard. Each URL is
checked once when it is added and again on a 30-second tick. A check is a POST
to the `check-status` endpoint. That endpoint fetches the URL, times the
request, and answers Up, Down with a status code, or Down with no latency,
together with a label for where the probe ran.

The model has one module per source file:

- `Types` (`types.dfy`) holds the shared records: `Website`, the `Status`
  values Up, Down and Checking, and `StatusCheck`. `Website` gets an optional
  `interval` field, which the interval dialog reads although the record type
  does not declare it. `StatusCheck` (a creation time and an optional latency)
  is declared here because the chart imports it and the types file does not
  define it.
- `HomePage` (`home_page.dfy`) covers the dashboard page. The class
  `HomePage.Home` holds the `websites` list. Its methods add a site, remove a
  site, apply a completed check and run the tick. The `map` and `filter` that
  these handlers run are the functions `ApplyOutcome` and `WithoutId`. Methods
  that start checks return the records they dispatch to `checkStatus`.
- `CheckStatusRoute` (`check_status_route.dfy`) covers the endpoint as one
  total function, `Handle`. Its inputs are the parsed body, the three edge
  headers, the result of the outbound fetch and the two clock readings. It
  returns the URL that was probed (absent when no probe was made) and the JSON
  reply.
- `AddSiteDialog` (`add_site_dialog.dfy`) covers URL normalisation and the
  dialog's submit.
- `EditIntervalDialog` (`edit_interval_dialog.dfy`) covers the 30-second
  minimum, the starting value and the submit.
- `ResponseTimeChart` (`response_time_chart.dfy`) covers the map-then-reverse
  series of the latency chart.

The program checks every site on every 30-second tick and keeps no check
history.

## Model

| member | source | states |
|---|---|---|
| `HomePage.Home.constructor` | src/app/page.tsx:27 | the list starts empty |
| `HomePage.Home.AddSite` | src/app/page.tsx:68-78 | appends exactly one record at the end, with the given id and url, status Checking, no latency, never checked; dispatches exactly one check, of that record |
| `HomePage.Home.RemoveSite` | src/app/page.tsx:80-82 | the new list is the old one without the records carrying the id |
| `HomePage.Home.CompleteCheck` | src/app/page.tsx:29-66 | the new list is the old one with the check's outcome applied to the records carrying the checked id |
| `HomePage.Home.Tick` | src/app/page.tsx:84-90 | dispatches one check per record currently in the list, in list order, and changes nothing |
| `HomePage.Placeholder` | src/app/page.tsx:69-75 | the new record carries the given id and url, status Checking, no latency and no lastChecked |
| `HomePage.Refreshed` | src/app/page.tsx:39-64 | a completed check keeps id, url and interval, stamps lastChecked; an answer sets status and latency from the reply, a thrown check sets Down with no latency |
| `HomePage.ApplyOutcome` | src/app/page.tsx:39-64 | length and order are kept; exactly the records with the checked id are refreshed, every other record is unchanged |
| `HomePage.WithoutId` | src/app/page.tsx:81 | a record is kept iff it was in the list and its id differs; the list never grows |
| `HomePage.LateResultIsNoOp` | src/app/page.tsx:39-50 | a result for an id not in the list leaves the list unchanged |
| `HomePage.RemoveAbsentIsNoOp` | src/app/page.tsx:81 | removing an id that is not in the list leaves it unchanged |
| `HomePage.WithoutIdAppend` | src/app/page.tsx:81 | removal keeps relative order: removing from a concatenation is removing from each part |
| `HomePage.RemovedIdIsAbsent` | src/app/page.tsx:81 | after a removal no record carries the id |
| `HomePage.ResultAfterRemovalIsNoOp` | src/app/page.tsx:39-82 | a check completing after its site was removed is a no-op |
| `HomePage.RemoveUndoesAdd` | src/app/page.tsx:68-82 | removing a site just added under a fresh id restores the previous list |
| `HomePage.OperationsKeepIdsDistinct` | src/app/page.tsx:39-82 | adding under a fresh id, removing and completing checks keep ids pairwise distinct |
| `HomePage.WithoutIdKeepsDistinct` | src/app/page.tsx:81 | removal keeps ids pairwise distinct |
| `HomePage.ApplyCompletions` | src/app/page.tsx:39-64 | completions applied in arrival order never add, drop or reorder records, nor change an id or a url |
| `HomePage.CompletionsSettle` | src/app/page.tsx:39-64 | in any arrival order, once a completion arrives for every record still Checking, and no answer is Checking, no record is left Checking |
| `HomePage.TickRoundSettles` | src/app/page.tsx:39-90 | after a tick whose dispatched checks have all completed, no record is left Checking |
| `HomePage.AddedUrlIsProbed` | src/app/page.tsx:29-37 | a URL that went through the add dialog is never answered with the 400 error, and that same URL is probed |
| `CheckStatusRoute.HeaderOrEmpty` | src/app/api/check-status/route.ts:26-28 | a present header value is used as it is; the result is empty iff the header is missing or empty |
| `CheckStatusRoute.NonEmptyParts` | src/app/api/check-status/route.ts:29 | a value is in the result iff it is a non-empty part; the result is never longer; `NonEmptyPartsAppend` gives order and repetitions |
| `CheckStatusRoute.NonEmptyPartsAppend` | src/app/api/check-status/route.ts:29 | filtering a concatenation is filtering each part, so order and repeated values are kept |
| `CheckStatusRoute.Join` | src/app/api/check-status/route.ts:29 | `.join(sep)`: the result starts with the first part, and its length is the parts' total plus one separator between each two neighbours; `JoinEmptyIff` and `JoinAppend` describe it further |
| `CheckStatusRoute.JoinEmptyIff` | src/app/api/check-status/route.ts:29-30 | with a non-empty separator, the join is empty iff there are no parts, or one empty part |
| `CheckStatusRoute.JoinAppend` | src/app/api/check-status/route.ts:29 | joining two non-empty lists is joining each with the separator between them |
| `CheckStatusRoute.LocationLabel` | src/app/api/check-status/route.ts:26-32 | the location label is never empty |
| `CheckStatusRoute.UnknownWhenNoHeaders` | src/app/api/check-status/route.ts:30-32 | with all three headers empty or missing, the label is "Unknown Location" |
| `CheckStatusRoute.LabelListsPresentParts` | src/app/api/check-status/route.ts:26-29 | with some header present, the label is the non-empty ones among city, region and country, in that order, joined by ", " |
| `CheckStatusRoute.LabelKeepsRepeats` | src/app/api/check-status/route.ts:26-29 | city X, no region, country X gives "X, X": a repeated value is kept |
| `CheckStatusRoute.LabelSkipsMissingRegion` | src/app/api/check-status/route.ts:26-29 | city Jakarta, no region, country ID gives "Jakarta, ID" |
| `CheckStatusRoute.HasUrl` | src/app/api/check-status/route.ts:7 | `!url` is false: the body parsed, has a url, and the url is not empty |
| `CheckStatusRoute.Handle` | src/app/api/check-status/route.ts:3-55 | 400 "URL is required" iff the body parsed and has no usable url, and then no probe is made; the probe goes to the body's url; Up iff the fetch answered ok; a status code, equal to the response's, iff it answered not ok; latency, equal to end minus start, iff it answered; Down with no latency when the body or the fetch threw; every probe result carries the same location label; never Checking |
| `CheckStatusRoute.LatencyNonNegative` | src/app/api/check-status/route.ts:14-23 | when the clock does not go backwards, a measured latency is not negative |
| `AddSiteDialog.LowerAscii` | src/components/add-site-dialog.tsx:47 | the `i` flag's folding: an ASCII capital maps to its small letter, every other character to itself |
| `AddSiteDialog.StartsWithIgnoringCase` | src/components/add-site-dialog.tsx:47 | the text is at least as long as the prefix and agrees with it letter by letter after folding |
| `AddSiteDialog.HasHttpScheme` | src/components/add-site-dialog.tsx:47 | true iff the text starts with h, t, t, p in any case, then an optional s in any case, then "://" (`SchemeEndAt`), as the regular expression reads |
| `AddSiteDialog.NormaliseUrl` | src/components/add-site-dialog.tsx:46-49 | the result always starts with http:// or https://, ignoring case; the input is returned unchanged iff it already does; otherwise https:// is put in front; never empty |
| `AddSiteDialog.NormaliseIdempotent` | src/components/add-site-dialog.tsx:46-49 | normalising twice is normalising once |
| `AddSiteDialog.SchemeIgnoresCase` | src/components/add-site-dialog.tsx:47 | two strings equal up to ASCII letter case both have or both lack the scheme |
| `AddSiteDialog.OtherSchemeIsPrefixed` | src/components/add-site-dialog.tsx:47-48 | `ftp://x` becomes `https://ftp://x` |
| `AddSiteDialog.MixedCaseSchemeIsKept` | src/components/add-site-dialog.tsx:47 | `HtTpS://Example.com` is kept as typed |
| `AddSiteDialog.Submit` | src/components/add-site-dialog.tsx:45-53 | an accepted draft calls `onAddSite` exactly once, with the normalised URL, then the field is cleared and the dialog closed; a refused draft calls nothing and changes nothing |
| `EditIntervalDialog.AcceptsInterval` | src/components/edit-interval-dialog.tsx:33 | a value is accepted iff it is at least 30 |
| `EditIntervalDialog.HasInterval` | src/components/edit-interval-dialog.tsx:52 | `website?.interval` is truthy: a site with an interval other than 0 |
| `EditIntervalDialog.InitialInterval` | src/components/edit-interval-dialog.tsx:52 | the starting value is the site's interval, or 60 when there is no site, no interval or an interval of 0; it is never 0 |
| `EditIntervalDialog.InitialIntervalAccepted` | src/components/edit-interval-dialog.tsx:52 | the starting value passes the 30-second minimum whenever the stored interval does, or there is none |
| `EditIntervalDialog.OptionsAccepted` | src/components/edit-interval-dialog.tsx:90-94 | every offered choice (30, 60, 300, 900, 1800) passes the minimum |
| `EditIntervalDialog.Submit` | src/components/edit-interval-dialog.tsx:56-61 | a submit calls anything iff there is a site and the value is at least 30; then it calls `onUpdateInterval` with the site's id and the value, then `onOpenChange(false)` |
| `ResponseTimeChart.Points` | src/components/response-time-chart.tsx:26-30 | one point per check, in the same order, time formatted from the creation time, latency copied unchanged |
| `ResponseTimeChart.Reverse` | src/components/response-time-chart.tsx:31 | `.reverse()` keeps the length; `ReverseIndex` gives each position |
| `ResponseTimeChart.ReverseIndex` | src/components/response-time-chart.tsx:31 | reversal keeps the length and puts element n-1-k at position k |
| `ResponseTimeChart.ReverseInvolutive` | src/components/response-time-chart.tsx:31 | reversing twice gives the sequence back |
| `ResponseTimeChart.ChartData` | src/components/response-time-chart.tsx:26-31 | as many points as checks; point i is drawn from check n-1-i, with its latency copied unchanged (absent included) |
| `ResponseTimeChart.ChartDataUndoesOrder` | src/components/response-time-chart.tsx:26-31 | reversing the series gives back the points in the order of the checks |

## Left out

- The outbound `fetch` calls, redirect following and the User-Agent header are network I/O. Their outcome is the input `FetchResult` on the endpoint and `CheckOutcome` on the page.
- `Date.now`, `new Date().toLocaleString()` and `toLocaleTimeString()` are clock readings and locale formatting. They are inputs: two integers on the endpoint, a `now` string on the page, a `timeOf` function in the chart.
- `crypto.randomUUID()` is randomness. The new id is a parameter of `Home.AddSite`; freshness is an assumption of the lemmas that need it.
- `setInterval` timing and the effect re-registering the timer whenever the list changes are not modelled. The interleaving of concurrent checks is not modelled either: each completion is one atomic list update, and `ApplyCompletions` allows any arrival order.
- `FetchResult` does not tie `ok` to a status of 200 to 299; `OkMatchesStatus` states that pairing, and no property of the model depends on it.
- `console.error` logging on the page's failure path is not modelled.
- If the endpoint's 400 reply reached the page's success path, the page would write `undefined` into the record's status and latency. The model cannot represent `undefined`. `HomePage.AddedUrlIsProbed` shows that a URL entered through the dialog never gets that reply.
- The body's `url` is a string or absent. A truthy non-string `url` (a number, say) is not modelled.
- zod's URL grammar and number coercion and the react-hook-form plumbing are library internals. The schema's verdict on the URL is the input `schemaAccepts`; intervals are integers, so NaN and fractions are not modelled.
- The chart card's text "Latency of the last N checks" is rendering. Its count is the length of the input, which `ChartData` keeps.
- Values in Dafny are immutable, so the fact that `reverse` runs on the fresh array built by `map`, not on the input, holds by construction and is not stated separately.
- `onUpdateInterval` has no caller in the page, so a new interval is never stored in the list. The model does not invent one.
- The status grid, the login page and the per-site page render data or handle authentication. They hold none of the modelled logic.
- Per-site due scheduling, persisted check history, daily rollups and uptime percentages are not present in the code, so they are not modelled.
