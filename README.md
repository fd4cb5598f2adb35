# Boomerang real-user-monitoring core, with its Logmatic decoder, in Dafny

This project models the parts of boomerang that measure a page and build its beacon, together with the
Logmatic decoder that reads the beacon back. Boomerang is a browser script that times page loads and
XMLHttpRequests and reports them in a "beacon".

- **BoomrUtils** (`boomr_utils.dfy`) holds the utility functions: the sub-cookie codec (`objectToString`
  with the "&" separator, `getCookie`, `getSubCookies`), `cleanupURL` with its query-string redaction,
  and `arrayFilter`.
- **BoomrCore** (`boomr_core.dfy`) is the `BOOMR` object as a class. It holds:
  - the beacon variables, the error counts, the event handler lists and the plugin flags;
  - a one-cookie `document.cookie`;
  - the queue of `setImmediate` calls.

  Its methods are `addVar`, `removeVar`, `addError`, `fireEvent`, `subscribe`, `page_ready`,
  `setCookie`, `removeCookie`, `sendBeacon` and the variable-building part of `real_sendBeacon`.
- **ResourceTiming** (`resource_timing.dfy`) is the resource-timing plugin:
  - the frame walk `findPerformanceEntriesForFrame`, with its clock shifting and trimming;
  - the filtering, grouping and per-type sorting of `getResourceTiming`;
  - the plugin object with `init`, `xhr_load`, `done` and `clearMetrics`.
- **RtLogic** (`rt_logic.dfy`) and **RoundTrip** (`round_trip.dfy`) are the round-trip (RT) plugin:
  - the timers (`startTimer`, `endTimer`, `setTimer`, and the flush `addTimersToBeacon` with its `t_other` text);
  - the session cookie (`updateCookie`, `initFromCookie`);
  - Navigation Timing and the start-time choice (`initFromNavTiming`, `determineTStart`);
  - the load timers (`setPageLoadTimers`, `setSupportingTimestamps`);
  - `done` with its measure and report halves;
  - the event handlers and `init`, which subscribes them.
- **TrieDecoder** (`trie_decoder.dfy`) and **Logmatic** (`logmatic.dfy`) are `src/logmatic-rum.js`:
  - `trieDecoder` flattens a nested object into path keys;
  - `restimingDecoder` turns compressed resource-timing strings into counts, a slowest time and the
    list of worst entries;
  - the loop that parses `t_other` back into named timers.
- **JsText**, **JsObject**, **JsValue**, **Sorting** and **Wrappers** hold the JavaScript
  building blocks the model needs:
  - `split` and `join`;
  - `parseInt` in a radix, and number-to-string;
  - objects as insertion-ordered entry lists;
  - JSON values;
  - an in-place insertion sort on an array, descending by a key.

Both boomerang classes keep their state in fields that their methods update, as the source does. The
sub-cookie, timer, flush and decoding logic is written as functions, with lemmas that relate them:

- reading back a written cookie;
- flushing timers and parsing their `t_other` text back;
- flattening a trie and finding each leaf again;
- tallying entries against their per-type statistics.

`BOOMR.now()` and everything the browser supplies are parameters of the methods. This includes the
performance objects, the visibility state, the referrer, whether a cookie is accepted, and the MD5 of a
URL. Every scheduled `setImmediate` call is appended to a queue rather than run.

## Model

| member | source | states |
|---|---|---|
| BoomrUtils.ObjectToString | dist/boomerang-debug.js:340-400 | the "&"-joined `k=v` text is empty exactly for an empty object |
| BoomrUtils.PairTexts | dist/boomerang-debug.js:376-396 | one `key=value` text per property, in property order |
| BoomrUtils.StripQuotes | dist/boomerang-debug.js:413 | exactly one leading `"` and one trailing `"` are removed when present, the rest is kept; a quoted value loses its quotes |
| BoomrUtils.GetCookie | dist/boomerang-debug.js:402-418 | an empty name reads nothing; a value is only read when `" name="` occurs in `" " + cookie + ";"` |
| BoomrUtils.GetCookieOfCookieText | dist/boomerang-debug.js:402-418 | reading a cookie back gives exactly the value written as `name="value"` (value without ";") |
| BoomrUtils.GetSubCookies | dist/boomerang-debug.js:455-482 | the loop's result is the fold over the "&" pieces; a non-null result has at least one key, and no key twice |
| BoomrUtils.SplitPair | dist/boomerang-debug.js:473-476 | `k=v` splits on "=" into exactly `[k, v]` when neither holds "=" |
| BoomrUtils.SubCookieStepPair | dist/boomerang-debug.js:472-478 | one loop step on a fresh `k=v` piece appends `(k, v)` |
| BoomrUtils.FoldPairTexts | dist/boomerang-debug.js:455-482 | folding the pair texts of a safe object rebuilds the object, order included |
| BoomrUtils.SubCookiesRoundTrip | dist/boomerang-debug.js:455-482 | `getSubCookies(objectToString(o, "&"))` gives back `o` for any safe object, and null for an empty one |
| BoomrUtils.SubCookiesFoldStep | dist/boomerang-debug.js:470-481 | one more piece is one more fold step, and adds a key exactly when the piece has one |
| BoomrUtils.RedactedFixed | dist/boomerang-debug.js:488-496 | a URL whose query is already redacted is left as it is by the redaction |
| BoomrUtils.SubCookiesFoldKeys | dist/boomerang-debug.js:470-481 | a key is in the result exactly when some piece starts with that key |
| BoomrUtils.ReplaceFrom | dist/boomerang-debug.js:491-492 | `replace(/c.*/, repl)`: the prefix before the first `c` is kept, the rest of that line becomes `repl`, no `c` means no change |
| BoomrUtils.CleanupURL | dist/boomerang-debug.js:488-496 | a missing or empty URL gives ""; without stripping the URL is kept; with stripping the query is replaced by "?qs-redacted" |
| BoomrUtils.CleanupURLIdempotent | dist/boomerang-debug.js:488-496 | cleaning an already cleaned URL changes nothing |
| BoomrUtils.ArrayFilter | dist/boomerang-debug.js:546-565 | the loop keeps the elements the callback accepts, in order, and nothing else |
| BoomrCore.EventNamesLowerCase | dist/boomerang-debug.js:252-263 | every event name is already lower case, so `toLowerCase` finds it |
| BoomrCore.StoredHandler | dist/boomerang-debug.js:986 | the stored handler's scope is never undefined (`cb_scope \|\| null`) |
| BoomrCore.AddHandler | dist/boomerang-debug.js:979-986 | the handler is in the list afterwards, is appended only when it was absent, and a duplicate-free list stays duplicate-free |
| BoomrCore.AddHandlerIdempotent | dist/boomerang-debug.js:979-986 | subscribing the same handler twice is subscribing it once |
| BoomrCore.SubscribeAsWrittenAgrees | dist/boomerang-debug.js:980-986 | with truthy data and a defined scope, the test as written behaves as intended |
| BoomrCore.SubscribeAsWrittenDuplicatesWithoutData | dist/boomerang-debug.js:982-986 | subscribing twice without callback data stores the handler twice |
| BoomrCore.SubscribeAsWrittenDuplicatesWithoutScope | dist/boomerang-debug.js:982-986 | subscribing twice without a scope stores the handler twice |
| BoomrCore.ErrorMessage | dist/boomerang-debug.js:1032-1047 | the message is `[src:now] ` (only with a source), then the error, then `:: extra` (only with a non-empty extra), and nothing else |
| BoomrCore.RecordDistinct | dist/boomerang-debug.js:1048-1053 | counting a message keeps one entry per message |
| BoomrCore.RecordAllSnoc | dist/boomerang-debug.js:1048-1053 | counting a list of messages is counting them one at a time |
| BoomrCore.RecordAllCounts | dist/boomerang-debug.js:1048-1053 | after a run of messages each one's count grew by the number of times it occurred |
| BoomrCore.RecordAllDistinct | dist/boomerang-debug.js:1048-1053 | the error table never holds a message twice |
| BoomrCore.ErrorLines | dist/boomerang-debug.js:1222-1226 | one line per distinct error: the message itself when it occurred once, and the message followed by ` (*n)` when it occurred n > 1 times |
| BoomrCore.ErrorLineReadBack | dist/boomerang-debug.js:1222-1226 | each error line reads back to its message (a prefix) and, for a repeated error, to its count through `parseInt` |
| BoomrCore.UrlVarsFacts | dist/boomerang-debug.js:1189-1201 | `u` is always set, kept when it was set outside an SPA, else the page URL; `pgu` survives only when it differs from `u` |
| BoomrCore.VisibilityVarsKeeps | dist/boomerang-debug.js:1205-1213 | the visibility step touches only `vis.st`, `vis.lv` and `vis.lh` |
| BoomrCore.AgentVarsKeeps | dist/boomerang-debug.js:1215-1220 | the platform, vendor and iframe step touches no other variable |
| BoomrCore.PageVarsFacts | dist/boomerang-debug.js:1189-1220 | `u` and `v` are set, `v` to the version; `u` kept outside an SPA; `pgu` differs from `u`; `errors` as it was |
| BoomrCore.Boomr.PluginsComplete | dist/boomerang-debug.js:1174-1184 | the loop finds the beacon ready exactly when no plugin that is not disabled is incomplete |
| BoomrCore.BeaconVarsFacts | dist/boomerang-debug.js:1186-1230 | the beacon has `u` and `v`; `pgu` differs from `u`; `errors` is the joined error lines when there were errors |
| BoomrCore.Boomr.constructor | dist/boomerang-debug.js:226-273 | the initial state: no variables or errors, an empty list for each of the ten events, nothing queued |
| BoomrCore.Boomr.AddVar | dist/boomerang-debug.js:1064-1067 | the variable holds the value and nothing else changes |
| BoomrCore.Boomr.AddVars | dist/boomerang-debug.js:1068-1075 | every property of the object is copied in; every other variable is untouched |
| BoomrCore.Boomr.RemoveVar | dist/boomerang-debug.js:1079-1100 | the named variables are gone and every other one is kept |
| BoomrCore.Boomr.AddError | dist/boomerang-debug.js:1032-1054 | the message's count goes up by one |
| BoomrCore.Boomr.FireEvent | dist/boomerang-debug.js:296-322 | an unknown event does nothing; each throwing handler logs `fireEvent.name<i>` once, in handler order |
| BoomrCore.Boomr.Subscribe | dist/boomerang-debug.js:968-991 | a known event's list gains the stored handler unless that very handler is already in it (the corrected duplicate test, see Findings); a late page_ready subscriber is queued to run |
| BoomrCore.Boomr.PageReady | dist/boomerang-debug.js:906-915 | the first call fires page_ready once and sets `onloadfired`; later calls change nothing |
| BoomrCore.Boomr.SendBeacon | dist/boomerang-debug.js:1145-1158 | returns true; takes a truthy override URL; queues `real_sendBeacon` only when none is queued |
| BoomrCore.Boomr.RealSendBeacon | dist/boomerang-debug.js:1160-1235 | nothing queued or an incomplete enabled plugin leaves vars and errors alone; otherwise the beacon variables are built and the errors reset |
| BoomrCore.Boomr.SetCookie | dist/boomerang-debug.js:420-453 | writes `name="value"` only with a name, a site domain and a cookie under 500 chars; success means the value reads back |
| BoomrCore.Boomr.RemoveCookie | dist/boomerang-debug.js:484-486 | an expired write clears the cookie and reports failure; when nothing is written nothing changes |
| BoomrCore.GetCookieEmpty | dist/boomerang-debug.js:402-418 | an empty cookie jar holds no cookie |
| ResourceTiming.ShiftMark | dist/boomerang-debug.js:1521-1531 | a zero timestamp stays zero; any other moves by the offset |
| ResourceTiming.ShiftMarksInverse | dist/boomerang-debug.js:1512-1535 | shifting onto another clock and back restores every timestamp that never hit zero |
| ResourceTiming.NavStart | dist/boomerang-debug.js:1400-1416 | zero without a performance object; a non-zero start is the frame's `navigationStart` |
| ResourceTiming.TrimTiming | dist/boomerang-debug.js:1380-1394 | zero stays zero; any other time becomes relative to the entry's start |
| ResourceTiming.PageEntry | dist/boomerang-debug.js:1468-1508 | at most one page entry, named by the page URL, without initiator type, starting at 0 |
| ResourceTiming.ShiftedResources | dist/boomerang-debug.js:1512-1535 | one entry per resource, same name and type, start moved by the frame offset |
| ResourceTiming.FindEntries | dist/boomerang-debug.js:1427-1444 | nothing is collected below depth 10 |
| ResourceTiming.ChildOffset | dist/boomerang-debug.js:1446-1455 | a child that started later than its parent is moved by the offset plus the difference; any other child gets offset 0 |
| ResourceTiming.ChildEntriesPrefix | dist/boomerang-debug.js:1449-1459 | the entries of the first children come before those of later children |
| ResourceTiming.FindEntriesChildrenFirst | dist/boomerang-debug.js:1448-1542 | the children's entries, in frame order, come before the frame's own page entry and resources; each child's block follows the earlier children's |
| ResourceTiming.FindEntriesCount | dist/boomerang-debug.js:1427-1542 | the number of entries depends only on the frame tree and depth, as counted frame by frame |
| ResourceTiming.FindEntriesOffsetIndependent | dist/boomerang-debug.js:1449-1535 | the clock offset moves start times only: names and types are the same for any offset |
| ResourceTiming.ToItem | dist/boomerang-debug.js:1590-1603 | an item's `start_at` is the entry's start and `t_done` its trimmed `responseEnd` |
| ResourceTiming.AddToGroupGet | dist/boomerang-debug.js:1590-1611 | adding an item changes only its type's group: one more item, appended, its time added |
| ResourceTiming.GroupStep | dist/boomerang-debug.js:1590-1611 | a group built from items `before` becomes the group of `before + [it]` |
| ResourceTiming.GroupAllSpec | dist/boomerang-debug.js:1563-1611 | each type's group holds exactly the kept entries of that type, in order, with their count and summed time |
| ResourceTiming.GroupAllDistinct | dist/boomerang-debug.js:1590-1611 | no initiator type is grouped twice |
| ResourceTiming.SortStep | dist/boomerang-debug.js:1614-1621 | sorting one more known type keeps the finished types and adds this one |
| ResourceTiming.CollectGroups | dist/boomerang-debug.js:1563-1611 | the loop's groups are exactly the grouping function's |
| ResourceTiming.SortGroups | dist/boomerang-debug.js:1614-1621 | every known type's items are sorted slowest first, counts and totals unchanged |
| ResourceTiming.GetResourceTiming | dist/boomerang-debug.js:1550-1624 | same types as the grouping; each group is a permutation of its items, slowest first for the six known types |
| ResourceTiming.ResultsJson | dist/boomerang-debug.js:1640-1655 | the serialised object has one field per type, in order, holding `nb`, `ordered_items` and `t_cumulated` |
| ResourceTiming.GroupJsonRoundTrip | dist/boomerang-debug.js:1596-1610 | a serialised `{nb, ordered_items, t_cumulated}` group reads back to the group: count, items in order (url, `t_done`, `start_at`) and total |
| ResourceTiming.ResultsJsonRoundTrip | dist/boomerang-debug.js:1640-1655 | the `restiming` value reads back to exactly the groups it was made from, type by type, in order |
| ResourceTiming.ResourceTimingPlugin.constructor | dist/boomerang-debug.js:1626-1629 | not complete, not initialised, not supported |
| ResourceTiming.ResourceTimingPlugin.Init | dist/boomerang-debug.js:1665-1688 | a first init with the entries API subscribes done (on page_ready and before_unload), xhr_load and clearMetrics; without it the plugin is complete at once |
| ResourceTiming.ResourceTimingPlugin.XhrLoad | dist/boomerang-debug.js:1630-1639 | an incomplete plugin completes and asks for a beacon |
| ResourceTiming.ResourceTimingPlugin.Done | dist/boomerang-debug.js:1640-1655 | once only: sets `restiming` to the sorted groups (as a JSON value, where the source stores its `JSON.stringify` text), completes and asks for a beacon |
| ResourceTiming.ResourceTimingPlugin.ClearMetrics | dist/boomerang-debug.js:1657-1661 | `restiming` is removed when the sent beacon had it, and nothing else |
| RtLogic.EndedTimers | dist/boomerang-debug.js:2393-2403 | ends a named timer that has not ended, creating it if needed; an ended timer and every other timer are untouched |
| RtLogic.StartedTimers | dist/boomerang-debug.js:2382-2391 | a fresh timer that starts at the value or now; starting `t_page` also ends `t_resp` |
| RtLogic.DeltaTimers | dist/boomerang-debug.js:2405-2411 | the named timer holds only the delta; others unchanged |
| RtLogic.TimerWritesDistinct | dist/boomerang-debug.js:2382-2411 | the timer object never holds a name twice |
| RtLogic.Flush | dist/boomerang-debug.js:2421-2435 | a set delta is kept; otherwise end minus start (or minus the cached start); no end or no start gives NaN |
| RtLogic.FlushAllFacts | dist/boomerang-debug.js:2417-2435 | flushing keeps names and order and flushes each timer |
| RtLogic.EmittedSpec | dist/boomerang-debug.js:2417-2445 | a (name, delta) pair is reported exactly when that timer flushed to that number |
| RtLogic.EmittedNames | dist/boomerang-debug.js:2417-2445 | reported names are timer names, none twice |
| RtLogic.SplitNames | dist/boomerang-debug.js:2437-2443 | t_done, t_resp and t_page get their own variables, every other timer goes into `t_other` |
| RtLogic.TimerVarsSpec | dist/boomerang-debug.js:2437-2440 | only basic timer variables change, each to its reported delta |
| RtLogic.FlushedBasicVar | dist/boomerang-debug.js:2417-2440 | a measurable basic timer's variable holds its delta after the flush |
| RtLogic.FlushKeepsDone | dist/boomerang-debug.js:2417-2435 | an ended `t_done` is still ended after the flush |
| RtLogic.FlushedVarsKeepFlags | dist/boomerang-debug.js:2437-2450 | the flush leaves `rt.abld` and `rt.ntvu` alone |
| RtLogic.XhrVarsKeepReport | dist/boomerang-debug.js:2506-2547 | reporting the request leaves `r`, `rt.abld` and `rt.ntvu` alone |
| RtLogic.FlushedVarsKeep | dist/boomerang-debug.js:2417-2450 | a flush changes no variable besides the basic timers and `t_other` |
| RtLogic.FlushReportsDone | dist/boomerang-debug.js:2417-2440 | flushing an ended `t_done` reports it as the flushed timer's delta (end minus start, or minus the cached start) |
| RtLogic.RequestTargetVars | dist/boomerang-debug.js:2506-2524 | sets `u` (fragment removed, cleaned), `http.errno` for an error status and `http.method` for a non-GET method, nothing else |
| RtLogic.RequestDetailVars | dist/boomerang-debug.js:2526-2547 | sets `http.hdr`, `xhr.sync`, `http.initiator` and `rt.subres` when present, nothing else |
| RtLogic.PutIf | dist/boomerang-debug.js:2506-2547 | a conditional `addVar` sets its key when the test holds and touches no other key |
| RtLogic.RequestVars | dist/boomerang-debug.js:2506-2547 | reporting a request touches only the request variables |
| RtLogic.XhrVarsKeep | dist/boomerang-debug.js:2506-2547 | any variable outside the request set is unchanged |
| RtLogic.LoadTimestamp | dist/boomerang-debug.js:2066-2097 | the request's `loadEventEnd` wins; a plain XHR or an on-time load gives now; a late load with Navigation Timing gives `loadEventStart` when set and before `t_end`, else now; without it the first set of onload, loader start, boomerang start, else now |
| RtLogic.ChooseStart | dist/boomerang-debug.js:2206-2244 | an XHR's own start labelled manual (none for a startless SPA); a page's start from Navigation Timing, then the cookie (not on back/forward), then the cache, else none |
| RtLogic.ChooseStartPage | dist/boomerang-debug.js:2220-2244 | a page start is non-zero and from one of the three sources; "none" exactly when there is no start; back/forward never uses the cookie |
| RtLogic.SessionStart | dist/boomerang-debug.js:1846 | the session start is the latest of the last load, unload and click times |
| RtLogic.FromCookie | dist/boomerang-debug.js:1846-1881 | with a non-zero start and a referrer or URL, `r` is the cookie's; the start is accepted exactly when the check is off, a click led to this URL or the referrer unloaded at the start, and then `hd` after it gives the first-byte estimate; a rejected start clears both; otherwise nothing changes |
| RtLogic.MergeParamsSpec | dist/boomerang-debug.js:1777-1796 | a parameter's key holds its (URL-hashed) value or is removed when null; every other key is untouched |
| RtLogic.UpdatedSubCookiesSpec | dist/boomerang-debug.js:1777-1802 | the written sub-cookies hold every given parameter and the timer at now |
| RoundTrip.NavigationStartOf | dist/boomerang-debug.js:2046-2052 | `navigationStart` (or `unloadEventStart` on Firefox 7/8) when set, else `fetchStart`, else none; never 0 |
| RoundTrip.SubmitTarget | dist/boomerang-debug.js:2308-2313 | the form's action (or the page URL) as it is when it holds a "?", else with "?" appended |
| RoundTrip.UnloadTimer | dist/boomerang-debug.js:2266-2279 | the cookie timer written on unload is `ul` or `hd`, never empty or `r` |
| RoundTrip.RT.constructor | dist/boomerang-debug.js:1727-1759 | the initial plugin state: no timers, cookie "RT" for 600 s, strict referrer, nothing fired |
| RoundTrip.RT.StartTimer | dist/boomerang-debug.js:2382-2391 | the timers become the started timers |
| RoundTrip.RT.EndTimer | dist/boomerang-debug.js:2393-2403 | the timers become the ended timers |
| RoundTrip.RT.SetTimer | dist/boomerang-debug.js:2405-2411 | the timers become the delta-set timers |
| RoundTrip.RT.AddTimersToBeacon | dist/boomerang-debug.js:2413-2456 | the variables become the flushed variables of the reported timers; a beacon flush also empties the timers and clears `complete` |
| RoundTrip.RT.FlushTimers | dist/boomerang-debug.js:2417-2445 | the loop sets the basic variables, records their names, and returns the `t_other` items |
| RoundTrip.RT.FlushAt | dist/boomerang-debug.js:2419-2443 | one iteration: flushes timer i and routes it to its own variable or to `t_other` |
| RoundTrip.RT.UpdateCookie | dist/boomerang-debug.js:1769-1823 | without a cookie name nothing happens; a successful normal write reads back as the merged sub-cookies; a slow write removes the cookie |
| RoundTrip.RT.InitFromCookie | dist/boomerang-debug.js:1838-1890 | without sub-cookies nothing changes; otherwise the session is what the cookie rules decide, and the sub-cookies written back hold none of `s`, `r`, `nu`, `ul`, `cl`, `hd` (a write that the browser accepts, within the size limit and not slow, reads back as them) |
| RoundTrip.RT.InitFromNavTiming | dist/boomerang-debug.js:2001-2060 | only once: reads the navigation type, start and response start from the first timing source and records it in `rt.start` |
| RoundTrip.RT.NavigationStart | dist/boomerang-debug.js:2572-2577 | the cached start, or the one read from Navigation Timing |
| RoundTrip.RT.CheckPreRender | dist/boomerang-debug.js:1976-1995 | a prerendered page ends `t_load` and starts `t_prerender` and `t_postrender`; otherwise timers are unchanged |
| RoundTrip.RT.FirstByte | dist/boomerang-debug.js:2125-2144 | the first byte from the request's timing, Navigation Timing, or the cookie estimate; `t_page` ends when none is known |
| RoundTrip.RT.MeasureResponse | dist/boomerang-debug.js:2146-2155 | `t_resp` ends and `t_page` is load (or done) minus first byte; nothing else changes |
| RoundTrip.RT.EndPrerender | dist/boomerang-debug.js:2157-2161 | a started postrender ends both prerender timers |
| RoundTrip.RT.PageLoadTimers | dist/boomerang-debug.js:2113-2164 | with a first byte, `t_resp` is ended and `t_page` measured from it; `t_done` is untouched |
| RoundTrip.RT.ResponseTimers | dist/boomerang-debug.js:2125-2155 | the first byte is found and, when set, `t_resp` and `t_page` are measured from it; `t_done` is untouched |
| RoundTrip.RT.SetPageLoadTimers | dist/boomerang-debug.js:2113-2164 | fails exactly for a prerendered page load; only `rt.start` may change among the variables, and a successful run leaves `t_done` as it was |
| RoundTrip.RT.SetSupportingTimestamps | dist/boomerang-debug.js:2176-2188 | sets `rt.tstart`, `rt.cstart` (when it differs), `rt.bstart`, `rt.blstart` and `rt.end`, nothing else |
| RoundTrip.RT.DetermineTStart | dist/boomerang-debug.js:2206-2244 | the start is the chosen one, cached, with its `rt.start` label |
| RoundTrip.RT.AddXhrVars | dist/boomerang-debug.js:2506-2547 | an XHR's request variables are set and their names recorded for clearing |
| RoundTrip.RT.AddRequestTarget | dist/boomerang-debug.js:2506-2524 | the variables become the request's target variables |
| RoundTrip.RT.AddRequestDetails | dist/boomerang-debug.js:2526-2547 | the variables become the request's detail variables |
| RoundTrip.RT.Done | dist/boomerang-debug.js:2461-2568 | a prerendered load is not measured; otherwise the plugin completes, `r` is set, the beacon's `t_done` is the load time minus the chosen start (when the page had not set `t_done` itself), and an unload sets `rt.quit`, `rt.abld`, `rt.ntvu` |
| RoundTrip.RT.FlagUnload | dist/boomerang-debug.js:2551-2561 | sets `rt.quit`, `rt.abld` before onload, `rt.ntvu` when never visible; leaves `r` alone |
| RoundTrip.RT.Measure | dist/boomerang-debug.js:2469-2496 | measures unless the page is prerendering; then `t_done` has ended (at the validated load time when it was new) and `rt.abld` is gone |
| RoundTrip.RT.Restart | dist/boomerang-debug.js:2477-2496 | ends `t_done` (a new one at the load time) and removes the stale variables of an earlier beacon |
| RoundTrip.RT.Report | dist/boomerang-debug.js:2498-2549 | flushes `t_done` and reports its delta as `t_done`, sets `r` to the cleaned referrer and keeps the unload flags |
| RoundTrip.RT.ReportTimers | dist/boomerang-debug.js:2498-2504 | `t_done` is flushed and its delta becomes the `t_done` variable; the unload flags are kept |
| RoundTrip.RT.PageReady | dist/boomerang-debug.js:2246-2251 | `onloadfired` is set |
| RoundTrip.RT.CheckVisibility | dist/boomerang-debug.js:2253-2264 | records the state; leaving prerender measures and completes; otherwise nothing else changes |
| RoundTrip.RT.PageUnload | dist/boomerang-debug.js:2266-2279 | first unload measures and completes with `rt.quit`; a written cookie holds the referrer and `ul`/`hd` at now |
| RoundTrip.RT.IterableClick | dist/boomerang-debug.js:2281-2302 | sets `nu` to the cleaned target and writes `nu` and `cl` into the cookie; no target does nothing |
| RoundTrip.RT.OnClick | dist/boomerang-debug.js:2304-2306 | a link click sets `nu` to its cleaned href |
| RoundTrip.RT.OnSubmit | dist/boomerang-debug.js:2308-2313 | a form submit sets `nu` to the cleaned form target |
| RoundTrip.RT.DomLoaded | dist/boomerang-debug.js:2315-2317 | `t_domloaded` is ended once; no other timer changes |
| RoundTrip.RT.Clear | dist/boomerang-debug.js:2319-2324 | removes exactly the added variables and forgets them |
| RoundTrip.RT.Init | dist/boomerang-debug.js:2330-2380 | every init sets `r2` to the hashed referrer, and `r` to it unless the cookie held a session; a first init subscribes all ten handlers and clears the timers (unless leaving prerender); later inits change no handler, timer or state |
| RoundTrip.RT.Setup | dist/boomerang-debug.js:2344-2378 | the first-init work: handlers subscribed, visibility recorded, timers cleared |
| RoundTrip.RT.RegisterAll | dist/boomerang-debug.js:2367-2376 | all ten RT handlers are subscribed |
| RoundTrip.RT.RegisterPageHandlers | dist/boomerang-debug.js:2367-2371 | the page_ready, visibility, xhr_load and dom_loaded handlers are subscribed, earlier ones kept |
| RoundTrip.RT.RegisterUserHandlers | dist/boomerang-debug.js:2372-2376 | the unload, click, submit, before_beacon and onbeacon handlers are subscribed, earlier ones kept |
| RoundTrip.RT.InitOnce | dist/boomerang-debug.js:2352-2380 | the once-only part of `init`: a second call changes nothing, a first one subscribes, records visibility and clears the timers |
| RoundTrip.RT.Referrers | dist/boomerang-debug.js:2340-2350 | `r2` is the hashed referrer, and `r` is too unless the cookie held a session |
| RoundTrip.RT.LoadSession | dist/boomerang-debug.js:2346-2350 | records whether the cookie held sub-cookies; without them `r` is kept |
| RoundTrip.RT.FirstVisibilityCheck | dist/boomerang-debug.js:2357-2360 | records the state; only leaving prerender measures and completes, otherwise the cleared timers stay cleared |
| RoundTrip.RT.ClearSession | dist/boomerang-debug.js:1883-1890 | without a cookie name nothing is written and the call fails; the merged sub-cookies hold none of `s`, `r`, `nu`, `ul`, `cl`, `hd`, a successful quick write reads back as them, and a write the browser accepts within the size limit succeeds |
| RoundTrip.ClearedParamsClear | dist/boomerang-debug.js:1883-1890 | merging the six `undefined` parameters deletes `s`, `r`, `nu`, `ul`, `cl` and `hd` from any sub-cookies |
| RoundTrip.RT.SaveSession | dist/boomerang-debug.js:2549 | without a cookie name the cookie jar is untouched |
| RoundTrip.RT.Finish | dist/boomerang-debug.js:2498-2567 | the reporting half of `done`: completes, queues a beacon, sets `r`, reports the flushed `t_done` and sets the unload flags |
| RoundTrip.RT.AddPageUrls | dist/boomerang-debug.js:2500-2504 | `r` is the cleaned referrer, `r2` the cleaned other referrer only when they differ; the unload flags are untouched |
| RoundTrip.RT.Conclude | dist/boomerang-debug.js:2549-2567 | completes and queues a beacon; only an unload adds `rt.quit`, `rt.abld` before onload and `rt.ntvu` when never visible, keeping `r` |
| RoundTrip.RT.UnloadBeacon | dist/boomerang-debug.js:2268-2271 | the unload `done` completes with `rt.quit`, and `rt.abld` exactly when onload never fired |
| RoundTrip.RT.WriteUrlParam | dist/boomerang-debug.js:1769-1823 | no cookie name means no write; a normal write holds the (hashed) URL under its key and now under the timer |
| BoomrCore.SubscribeOne | dist/boomerang-debug.js:968-986 | one subscription keeps all earlier ones and adds this one |
| BoomrCore.SubscribeNext | dist/boomerang-debug.js:968-986 | subscribing the next handler of a list extends the subscribed prefix by one |
| Sorting.InsertAt | src/logmatic-rum.js:92-95 | one insertion step extends the sorted prefix and permutes the array |
| Sorting.SortDescending | src/logmatic-rum.js:92-95 | the array ends sorted by descending key and is a permutation of the original |
| TrieDecoder.FlattenDistinct | src/logmatic-rum.js:17-35 | the flattened object never holds a key twice |
| TrieDecoder.FlattenNodeSpec | src/logmatic-rum.js:17-35 | each flattened key holds the last leaf whose path spells it |
| TrieDecoder.SubtrieSpec | src/logmatic-rum.js:23-28 | a subtrie's flattened entries, prefixed, answer every key as its leaf paths do |
| TrieDecoder.LastPrefixed | src/logmatic-rum.js:27 | looking up a prefixed key is looking up the rest without the prefix |
| TrieDecoder.PutPrefixedGet | src/logmatic-rum.js:25-28 | copying a prefixed subtrie overrides exactly the keys it defines |
| TrieDecoder.FlattenPaths | src/logmatic-rum.js:17-35 | every output entry is a leaf path, and every leaf path has a key in the output |
| TrieDecoder.NestedExample | src/logmatic-rum.js:17-35 | illustration of `FlattenNodeSpec` on one input: `{a: {b: 1, c: 2}}` flattens to `{ab: 1, ac: 2}` |
| Logmatic.WorstCount | src/logmatic-rum.js:98-102 | -1 keeps every entry; n >= 0 keeps the first n; a negative n drops that many from the end |
| Logmatic.MaxTimeSpec | src/logmatic-rum.js:74-82 | the slowest time is at least 0, bounds every entry, and is some entry's time unless 0 |
| Logmatic.TallyTotals | src/logmatic-rum.js:73-82 | `nb` counts every entry and `t_max` is the slowest time |
| Logmatic.TallyDistinct | src/logmatic-rum.js:76-87 | no type appears twice |
| Logmatic.TallyTypes | src/logmatic-rum.js:76-87 | each type holds the count and slowest time of the entries of that type, and a type without entries is absent |
| Logmatic.TallySum | src/logmatic-rum.js:81-86 | the per-type counts add up to the total |
| Logmatic.TallySummary | src/logmatic-rum.js:73-87 | all the tally facts together |
| Logmatic.Collect | src/logmatic-rum.js:52-89 | succeeds exactly when every leaf is a string, then yields one entry per key and their tally |
| Logmatic.TallyLoop | src/logmatic-rum.js:73-87 | the loop's counters are the tally of the entries |
| Logmatic.Rank | src/logmatic-rum.js:92-108 | the worst list is the texts of the first entries of a slowest-first permutation: as many as the slice keeps, each the text of a given entry |
| Logmatic.RestimingDecoder | src/logmatic-rum.js:43-112 | TypeError exactly for a non-string leaf or an empty trie; otherwise counts, slowest time, per-type stats and worst entries as described |
| Logmatic.RestimingDecoderCorrected | src/logmatic-rum.js:43-112 | as above, but an empty trie gives an empty summary |
| Logmatic.EmptyTrieHasNoEntry | src/logmatic-rum.js:17-35 | `{}` flattens to no entry, which passes every leaf check |
| Logmatic.ParseBase36 | src/logmatic-rum.js:63-66 | `parseInt(v, 36)` reads back a number printed in base 36 |
| Logmatic.LeafRoundTrip | src/logmatic-rum.js:58-69 | a compressed leaf's first character names its type and its second timing is its load time |
| Logmatic.EntryOfCompressed | src/logmatic-rum.js:51-69 | the entry of a compressed leaf is its cleaned URL, its type and its load time |
| Logmatic.ParseOtherTimers | src/logmatic-rum.js:138-146 | the loop builds the object the items define, a later name overriding an earlier one |
| Logmatic.OtherTimersDistinct | src/logmatic-rum.js:140-144 | the parsed object never holds a name twice |
| Logmatic.ItemRoundTrip | src/logmatic-rum.js:142-143 | `name\|delta` parses back to the name and the delta |
| Logmatic.ItemsRoundTrip | src/logmatic-rum.js:141-144 | the items of distinct names parse back to those names and deltas |
| Logmatic.OtherTextRoundTrip | src/logmatic-rum.js:138-146 | the `t_other` text RT writes parses back to exactly the timers it holds |
| Logmatic.FlushedOtherRoundTrip | dist/boomerang-debug.js:2442-2448 | after a flush, the `t_other` variable parses back to every measurable non-basic timer |
| JsText.ToLowerAsciiFixed | dist/boomerang-debug.js:970 | `toLowerCase` leaves a name without capitals unchanged |
| JsText.JoinSplit | src/logmatic-rum.js:139 | splitting on a separator and joining back is the identity |
| JsText.SplitJoin | src/logmatic-rum.js:139 | joining separator-free parts and splitting gives the parts back |
| JsText.ParseIntOfIntToString | src/logmatic-rum.js:143 | `parseInt` reads back a printed integer |

## Left out

- The DOM and browser plumbing are not modelled: shims, `dispatchEvent` to public events, `addListener`, the
  form, image and XHR transport of `real_sendBeacon` (dist/boomerang-debug.js:1237-1299), and `BOOMR.init`'s
  plugin configuration loop. The values these produce are method parameters.
- RoundTrip.RT.Init: takes no configuration. The plugin's own `pluginConfig(impl, config, "RT", ["cookie",
  "cookie_exp", "strict_referrer"])` call (dist/boomerang-debug.js:2337-2338) is not modelled, so `cookie`,
  `cookieExp` and `strictReferrer` keep the constructor's defaults unless they are set as fields.
- RtLogic.CookieNumber, RtLogic.SessionStart, RtLogic.FromCookie: unary `+` on cookie text (`JsText.ToNumber`)
  accepts only optionally signed decimal integers. JavaScript's conversion also trims white space and accepts
  fractions, exponents, `0x` hex and `Infinity`, so a foreign or edited `ld=" 1700000000000"` or `ld="1.7e12"`
  reads as 0 in the model and as a time in the source. The instrumentation's own writes are integers.
- `setImmediate`: scheduled calls are appended to a queue and never run.
- `BOOMR.now()` is a parameter, constant within one handler.
- `hashQueryString` and its MD5 are the `hashUrl` function parameter; `encodeURIComponent` and
  `decodeURIComponent` are the identity (values are taken as URL-safe).
- `document.cookie` holds only the cookie last written. Whether the browser accepted a write, and whether it took
  over 50 ms, are boolean inputs.
- `objectToString` is modelled only for a flat object with the "&" separator, the one case cookies use.
- The `_iterable_click` walk up the DOM is given as the found value; `chrome.csi`, `gtbExternal` and the
  performance objects are inputs.
- `getBoomerangTimings`, `BOOMR.plugins` registration and the debugging helpers are not modelled.
- `Object.keys` order is insertion order in the model; JavaScript puts integer-like keys first, which the model
  does not do.
- `src/logmatic-rum.js:119-151`: the basic-info block, `location` and the log sink are left out. Only the
  `restiming` and `t_other` parsing are modelled.
- This build's ResourceTiming writes `{type: {nb, ordered_items, t_cumulated}}` objects, while `restimingDecoder`
  expects compressed-string leaves. The two are modelled separately, and no lemma connects them.
- Logmatic.RestimingDecoder: `parseInt` can give NaN for a load time. The model requires every leaf to decode
  (`Decodable`), so NaN times and the comparator's implementation-defined sort with them are not modelled.
- ResourceTiming.TrimTiming, ResourceTiming.ToItem, ResourceTiming.ChildOffset: times are whole milliseconds.
  `trimTiming`'s `Math.round` and fractional `startTime` values and frame offsets are not modelled.
- Logmatic.Decodable, Logmatic.LoadTime, Logmatic.ItemValue: `JsText.ParseInt` does not strip leading white
  space, which JavaScript's `parseInt` does. A field such as `" 1a"` reads as NaN in the model but as a number
  in the decoder (src/logmatic-rum.js:66 and 143).
- BoomrCore.Boomr.Subscribe, BoomrCore.Boomr.FireEvent: event names are lower-cased on ASCII letters only
  (`JsText.ToLowerAscii`), where JavaScript's `toLowerCase` maps the full Unicode range. A name such as
  `"clic\u212A"` (Kelvin sign) finds the `click` event in the source but no event in the model.
- Logmatic.Collect: checks that every leaf is a string before counting, where the source throws part-way. The
  thrown TypeError discards the partial work, so the outcome is the same.
- Logmatic.RestimingDecoder: the order of the per-type keys in `assets` is not stated, only their contents.
- Logmatic.RestimingDecoder: a name is cleaned with the `strip` flag passed in, standing for boomerang's
  `strip_query_string` setting.
- BoomrCore.Boomr.RealSendBeacon: stops after `before_beacon` fires; the transport is left out.
- BoomrCore.Boomr.FireEvent: a handler's effects other than throwing are not run; which handlers throw is the
  `thrown` input.
- BoomrCore.ErrorMessage: an error object's `name`/`message` text is taken as already converted to a string.
- ResourceTiming.FindEntries: the cross-origin `try`/`catch` around a child frame is modelled as a frame without
  a performance object.
- RoundTrip.RT.SetPageLoadTimers: its contract states the variables it may change and the prerender outcome; the
  timer effects are stated by `PageLoadTimers`, `FirstByte`, `MeasureResponse` and `EndPrerender`.
- BoomrCore.Boomr.Subscribe: uses the corrected duplicate test (`AddHandler`), not the one as written
  (`SubscribeAsWritten`), under which a handler subscribed twice without data or without a scope is stored twice.
  RT and ResourceTiming subscribe each handler once per page (behind their `initialized` flags), so the two tests
  agree on every list they build.
- RoundTrip.RT.Done: states the `t_done` value for a page that had not set `t_done` itself. For one that had,
  it states only that the variable holds the flushed timer's delta (`ReportsDone`). The start is the one
  `determineTStart` cached (`DetermineTStart` relates it to `ChooseStart`); `Done` does not restate that choice.
- RoundTrip.RT.SaveSession: states only that no cookie name means no write; what a write stores is stated by
  `UpdateCookie`.
- RoundTrip.RT.Init: states `r` only when the cookie held no session (the ghost `hadSession`, whose meaning
  `LoadSession` states); the value read from a cookie session is stated by `InitFromCookie`.
- RoundTrip.RT.Report: states `r`, the flushed `t_done` and the unload flags; the rest of the flush is stated by
  `AddTimersToBeacon` and the request variables by `AddXhrVars`.

## Findings

| source | as written | input that shows it | evidently intended | confidence | as-written member | corrected member |
|---|---|---|---|---|---|---|
| dist/boomerang-debug.js:980-986 | the duplicate test compares the stored `cb_data` and `scope` with the raw arguments, but stores `cb_data \|\| {}` and `cb_scope \|\| null` | `subscribe("page_ready", f)` twice: the stored data is a fresh `{}` and the scope `null`, so neither matches and `f` is stored and run twice | a handler is attached at most once for the same function, data and scope | not executed | BoomrCore.SubscribeAsWrittenDuplicatesWithoutData, BoomrCore.SubscribeAsWrittenDuplicatesWithoutScope | BoomrCore.AddHandler, BoomrCore.AddHandlerIdempotent |
| src/logmatic-rum.js:75, 92-103 | `assets.entries` is created only inside the per-key loop, then sorted unconditionally | a `restiming` value of `{}` (no resources): `assets.entries.sort` throws TypeError | an empty summary (`nb` 0, `t_max` 0, no worst entries) | not executed | Logmatic.RestimingDecoder | Logmatic.RestimingDecoderCorrected |
