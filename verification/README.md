# deepin app store: search controller, update-record codec and category list

This project models three pieces of logic from the deepin application store front end and proves properties of them in Dafny.

- **The main window's search controller and window helpers** (`WebWindow`, src/ui/web_window.cpp). The title bar's search edit drives a single-shot search timer with a 200 ms delay. When the timer expires, the window runs a partial search. Clicking the search button runs a complete search. A text of one character or less, or one containing any of `+ $ . ^ ! @ # % & ( )`, is never searched for. A valid search first records the text as the completion window's keyword and then sends exactly one query to the search manager. The window also extracts the names of complete results for the web-side result list. It saves its geometry on shutdown and restores it on start-up. Its minimum size depends on the available screen width. Its back and forward buttons act only when the page can go back or forward.
  - search.dfy holds the controller as pure values. `SearchState` is the edit's text, the timer, the keyword and a log of everything the window asks of its collaborators. `Event` holds the signals the slots are connected to. `Step` and `Run` give the state after one event and after a sequence of events.
  - window_state.dfy models the saved state as a map with the keys `pos`, `size` and `isMaximized`, and holds the minimum-size rule.
  - navigation.dfy holds the page history the back and forward buttons use.
  - web_window.dfy holds the class `WebWindow`, whose fields are the timer, the keyword, the effect log and the geometry. Each slot of the class is proved against the pure functions.
- **The wire forms of `AppUpdateInfo`** (src/dbus/dbusvariant/app_update_info.cpp), in app_update_info.dfy. This six-string record is written to and read from a D-Bus argument and a data stream in a fixed field order. The D-Bus form is wrapped in begin/end structure markers; the data-stream form has no markers. Both are modelled as token sequences with a read cursor. Pure `Encode`/`Decode` functions serve as the specification of the writer and reader methods.
- **The category list of the web front end** (src/web/src/app/services/category.service.ts), in category_service.dfy. This covers the projection step of `getList`, its fallback on error, and `makeDefaultCategory`.

## Model

| member | source | states |
|---|---|---|
| `Search.ContainsSpecialChar` | src/ui/web_window.cpp:108 | the search expression matches a text iff some character of it is one of `+ $ . ^ ! @ # % & ( )` |
| `Search.IsInvalidSearchText` | src/ui/web_window.cpp:474 | the guard of prepareSearch: a text is refused iff it has at most one character or some character is special |
| `Search.ResultNames` | src/ui/web_window.cpp:445-448 | the names list has one entry per result, and entry i is the name of result i |
| `Search.CollectNames` | src/ui/web_window.cpp:445-448 | the loop that appends each result's name returns a list of the results' length whose entry i is result i's name |
| `Search.InitialInv` | src/ui/web_window.cpp:105-126 | a freshly built window (idle timer, empty keyword, nothing sent) satisfies the controller invariant |
| `Search.PrepareSearch` | src/ui/web_window.cpp:470-487 | prepareSearch as a state step: it leaves the edit and the timer alone, only appends to the log, by at most one effect, and keeps the invariant (what it appends: `PrepareSearchRejectsInvalid`, `PrepareSearchDispatchesOnce`) |
| `Search.OnSearchEditFocusOut` | src/ui/web_window.cpp:453-458 | only the log changes, by one effect that is not a query, and the invariant is kept |
| `Search.OnSearchTextChanged` | src/ui/web_window.cpp:495-503 | edit and keyword unchanged; the timer runs afterwards iff it ran before or the text is longer than one character, then with interval 200; no query is added and the invariant is kept (see `LongTextRestartsTimer`, `ShortTextLeavesTimer`) |
| `Search.OnTimerTimeout` | src/ui/web_window.cpp:465-468 | the timer is idle afterwards and the edit unchanged; if the timer was running and the edit's text is valid, the keyword becomes that text and exactly one partial search of it is added, otherwise keyword and log are unchanged; the invariant is kept (see `IdleTimeoutIgnored`, `DebounceFiresOnce`) |
| `Search.OnTitleBarEntered` | src/ui/web_window.cpp:505-511 | only the log changes; an effect is added iff the text is longer than one character, and it is the forwarded Enter |
| `Search.OnCompleteSearchAppResult` | src/ui/web_window.cpp:439-451 | only the log changes, by two effects, neither a query, and the invariant is kept (what they are: `CompleteResultOpensList`) |
| `Search.PrepareSearchRejectsInvalid` | src/ui/web_window.cpp:470-477 | for a text of length at most 1 or containing a special character, prepareSearch sends no query and leaves keyword, timer and log unchanged |
| `Search.PrepareSearchDispatchesOnce` | src/ui/web_window.cpp:479-486 | for a valid text, prepareSearch sets the keyword to the text and appends exactly one query for it: a complete search iff `entered`, otherwise a partial search |
| `Search.LongTextRestartsTimer` | src/ui/web_window.cpp:495-499 | a text change longer than one character (re)starts the single timer with interval 200 and sends nothing |
| `Search.ShortTextLeavesTimer` | src/ui/web_window.cpp:495-503 | a text change of at most one character leaves the timer as it was and only schedules hiding the completion window |
| `Search.IdleTimeoutIgnored` | src/ui/web_window.cpp:115 | with the single-shot timer idle, a timeout changes nothing |
| `Search.EnterForwardedOnlyForLongText` | src/ui/web_window.cpp:505-511 | Enter is forwarded to the completion window iff the edit's text is longer than one character |
| `Search.CompleteResultOpensList` | src/ui/web_window.cpp:439-451 | complete results open the result list under the completion window's keyword (not the signal's), with the names in result order, then hide the completion window |
| `Search.SubmitThenResultOpensListForText` | src/ui/web_window.cpp:439-487 | clicking search on a valid text and then receiving its complete results sends one complete query for the text and opens the list under that same text |
| `Search.StepPreservesInv` | src/ui/web_window.cpp:453-511 | every slot keeps the invariant: a running timer has interval 200, every query's text is a valid search text, and the keyword (and so the keyword a result list opens under) is empty or a valid search text |
| `Search.RunPreservesInv` | src/ui/web_window.cpp:474-486 | after any sequence of signals, no invalid text has ever been sent as a query |
| `Search.BurstQueriesNothing` | src/ui/web_window.cpp:495-503 | a burst of text changes with no timeout between them sends no query and leaves the keyword unchanged. The edit ends with the last text. The timer runs with interval 200 iff it ran before or some change was long |
| `Search.DebounceFiresOnce` | src/ui/web_window.cpp:465-503 | after a burst that restarted the timer, its expiry sends exactly one partial search, for the text current at expiry (none if that text is invalid). The timer then stops, so a second timeout adds nothing |
| `WindowState.BackupWindowState` | src/ui/web_window.cpp:66-80 | the saved map holds exactly the keys `pos`, `size` and `isMaximized` |
| `WindowState.RestoreActions` | src/ui/web_window.cpp:82-101 | the calls of a restore come in the order resize, move, maximize, each at most once; there is a resize to the saved size iff a size is saved, a move to the saved position iff a position is saved, and a maximize iff the saved flag, false when absent, is true |
| `WindowState.RestoreAfterBackup` | src/ui/web_window.cpp:92-100 | restoring a backed-up map resizes to the saved size, then moves to the saved position, then maximizes iff the saved flag is true |
| `WindowState.RestoreAbsentKeys` | src/ui/web_window.cpp:92-100 | an absent size key causes no resize and an absent position key no move. An absent flag counts as false, so there is no maximize. An empty map causes no action |
| `WindowState.RestoredBySteps` | src/ui/web_window.cpp:92-100 | a restore is the size step, then the position step, then the maximize step, both as the calls made and as the resulting geometry |
| `WindowState.RestoreEmptyKeepsGeometry` | src/ui/web_window.cpp:85-100 | restoring an empty map leaves the window's geometry as it was |
| `WindowState.BackupRestoreRoundTrip` | src/ui/web_window.cpp:66-101 | restoring into a non-maximized window the map backed up from (pos, size, flag) gives exactly that position, size and flag |
| `WindowState.MinimumSize` | src/ui/web_window.cpp:174-183 | the minimum size is 1208x778 iff the available width exceeds 1366, and 960x716 otherwise |
| `WindowState.AtLeast` | src/ui/web_window.cpp:177-181 | the size a window has after setMinimumSize: at least the minimum and at least the old size in each dimension, each being one of the two, and the old size when it already fits |
| `WindowState.MinimumSizeMonotone` | src/ui/web_window.cpp:177-181 | a consequence of the width rule rather than a promise of the window: a wider screen never gets a smaller minimum size, and the wide minimum is narrower than any width that selects it |
| `Navigation.ForwardUndoesBack` | src/ui/web_window.cpp:536-550 | a check of the assumed two-stack page history, not of the window's logic (that is the guard in `WebViewGoBack`/`WebViewGoForward`): going forward after going back returns to the same history |
| `Navigation.BackUndoesForward` | src/ui/web_window.cpp:536-550 | a check of the assumed two-stack page history, not of the window's logic: going back after going forward returns to the same history |
| `WebWindowUi.WebWindow.constructor` | src/ui/web_window.cpp:105-126 | the window starts with an idle timer, an empty edit, keyword and log, and the saved state restored into its initial geometry; it is shown exactly when the saved flag says maximized |
| `WebWindowUi.WebWindow.RestoreWindowState` | src/ui/web_window.cpp:82-101 | the window's geometry becomes the restore of the map applied to the old geometry, and the resize/move/maximize calls are logged in that order; showing maximized also shows the window, so it is shown afterwards iff it was before or the saved flag is true |
| `WebWindowUi.WebWindow.RestoreSize` | src/ui/web_window.cpp:92-94 | the window is resized to the saved size, and the resize logged, iff a size is saved; nothing else changes |
| `WebWindowUi.WebWindow.RestorePos` | src/ui/web_window.cpp:95-97 | the window is moved to the saved position, and the move logged, iff a position is saved; nothing else changes |
| `WebWindowUi.WebWindow.RestoreMaximized` | src/ui/web_window.cpp:98-100 | the window is maximized and shown, and showMaximized logged, iff the saved flag (false when absent) is true |
| `WebWindowUi.WebWindow.BackupWindowState` | src/ui/web_window.cpp:66-80 | the saved map is the backup of the current geometry; restoring it into any non-maximized window reproduces this window's geometry |
| `WebWindowUi.WebWindow.ShowWindow` | src/ui/web_window.cpp:174-183 | sets the minimum size by the width rule, enlarges the window to at least that size (`AtLeast`), and shows the window |
| `WebWindowUi.WebWindow.WebViewGoBack` | src/ui/web_window.cpp:536-542 | the page goes back iff it can; otherwise its history is unchanged |
| `WebWindowUi.WebWindow.WebViewGoForward` | src/ui/web_window.cpp:544-550 | the page goes forward iff it can; otherwise its history is unchanged |
| `WebWindowUi.WebWindow.PrepareSearch` | src/ui/web_window.cpp:470-487 | the new search state is `Search.PrepareSearch` of the old one, and the invariant is kept |
| `WebWindowUi.WebWindow.OnSearchEditFocusOut` | src/ui/web_window.cpp:453-458 | only a delayed hide of the completion window is logged |
| `WebWindowUi.WebWindow.OnSearchTextChanged` | src/ui/web_window.cpp:495-503 | stops and restarts the timer at 200 for a long text, else schedules a hide; the invariant is kept |
| `WebWindowUi.WebWindow.OnSearchTextChangedDelay` | src/ui/web_window.cpp:465-468 | a partial search of the edit's text |
| `WebWindowUi.WebWindow.OnSearchButtonClicked` | src/ui/web_window.cpp:460-463 | a complete search of the edit's text |
| `WebWindowUi.WebWindow.OnSearchTimerTimeout` | src/ui/web_window.cpp:224-225 | a running single-shot timer stops and runs the partial search; an idle one does nothing |
| `WebWindowUi.WebWindow.OnTitleBarEntered` | src/ui/web_window.cpp:505-511 | Enter is forwarded only when the edit's text is longer than one character |
| `WebWindowUi.WebWindow.OnCompleteSearchAppResult` | src/ui/web_window.cpp:439-451 | opens the result list with the collected names under the keyword, then hides the completion window |
| `WebWindowUi.WebWindow.Dispatch` | src/ui/web_window.cpp:224-240 | delivering any search signal to its connected slot changes the search state exactly as `Search.Step` says, keeping the invariant |
| `AppUpdateInfoCodec.WritersFollowFieldOrder` | src/dbus/dbusvariant/app_update_info.cpp:35-66 | both writers emit the six fields in the debug printer's order: id, name, icon, current version, last version, changelog |
| `AppUpdateInfoCodec.EncodeStream` | src/dbus/dbusvariant/app_update_info.cpp:58-66 | the data-stream writer emits six string tokens (their order: `WritersFollowFieldOrder`; their inverse: `StreamRoundTrip`) |
| `AppUpdateInfoCodec.EncodeDBus` | src/dbus/dbusvariant/app_update_info.cpp:45-56 | the D-Bus writer emits a begin marker, six string tokens and an end marker (inverse: `DBusRoundTrip`) |
| `AppUpdateInfoCodec.DecodeStream` | src/dbus/dbusvariant/app_update_info.cpp:81-89 | the data-stream reader either succeeds after consuming exactly six tokens, all present, or leaves the stream failed within them; a failed stream gives the empty record and stays put |
| `AppUpdateInfoCodec.DecodeDBus` | src/dbus/dbusvariant/app_update_info.cpp:68-79 | the D-Bus reader either succeeds after consuming exactly eight tokens, all present, or leaves the argument failed within them; a failed argument gives the empty record and stays put |
| `AppUpdateInfoCodec.DBusFraming` | src/dbus/dbusvariant/app_update_info.cpp:45-66 | the D-Bus form is eight tokens: one begin marker, six strings, one end marker; the data-stream form holds no marker |
| `AppUpdateInfoCodec.StreamRoundTrip` | src/dbus/dbusvariant/app_update_info.cpp:58-89 | reading where a record was written returns it and consumes exactly its six tokens, leaving any trailing tokens |
| `AppUpdateInfoCodec.DBusRoundTrip` | src/dbus/dbusvariant/app_update_info.cpp:45-79 | reading where a record was written returns it and consumes exactly its eight tokens, leaving any trailing tokens |
| `AppUpdateInfoCodec.StreamReadsRecordsInOrder` | src/dbus/dbusvariant/app_update_info.cpp:81-89 | two records written in turn are read back in turn |
| `AppUpdateInfoCodec.FailedStreamReadsNothing` | src/dbus/dbusvariant/app_update_info.cpp:68-89 | from a failed stream both readers return the empty record and do not move |
| `AppUpdateInfoCodec.StreamReadSucceedsOnlyOnEncoding` | src/dbus/dbusvariant/app_update_info.cpp:81-89 | a successful read consumed six tokens that are exactly the encoding of the record returned, so a stream with fewer than six tokens left fails |
| `AppUpdateInfoCodec.DBusReadSucceedsOnlyOnEncoding` | src/dbus/dbusvariant/app_update_info.cpp:68-79 | a successful D-Bus read consumed eight tokens that are exactly the framed encoding of the record returned, so an argument with fewer than eight tokens left fails |
| `AppUpdateInfoCodec.WriteDBusArgument` | src/dbus/dbusvariant/app_update_info.cpp:45-56 | appends exactly the D-Bus encoding of the record |
| `AppUpdateInfoCodec.WriteDataStream` | src/dbus/dbusvariant/app_update_info.cpp:58-66 | appends exactly the data-stream encoding of the record |
| `AppUpdateInfoCodec.ReadDBusArgument` | src/dbus/dbusvariant/app_update_info.cpp:68-79 | the record and the new cursor are those of the D-Bus decoder; the tokens are untouched |
| `AppUpdateInfoCodec.ReadDataStream` | src/dbus/dbusvariant/app_update_info.cpp:81-89 | the record and the new cursor are those of the data-stream decoder; the tokens are untouched |
| `CategoryService.DecimalString` | src/web/src/app/services/category.service.ts:24 | an index's string is a non-empty string of decimal digits with no leading zero |
| `CategoryService.DecimalRoundTrip` | src/web/src/app/services/category.service.ts:24 | reading an index's string back as a decimal gives the index |
| `CategoryService.DecimalStringInjective` | src/web/src/app/services/category.service.ts:24 | different indexes have different strings |
| `CategoryService.Shown` | src/web/src/app/services/category.service.ts:23 | the filter keeps no more entries than the input has; all of them are shown entries of the input, and every shown entry is kept |
| `CategoryService.ShownIndicesLocate` | src/web/src/app/services/category.service.ts:23 | kept entry k is the input entry at position `ShownIndices(ccs)[k]` |
| `CategoryService.ShownIndicesIncrease` | src/web/src/app/services/category.service.ts:23 | those positions increase strictly, so the input order is kept |
| `CategoryService.ShownIndicesComplete` | src/web/src/app/services/category.service.ts:23 | the position of every shown input entry is among them |
| `CategoryService.ShownIsOrderedSelection` | src/web/src/app/services/category.service.ts:23 | the filter keeps exactly the shown entries, each once, in their input order |
| `CategoryService.MakeDefaultCategory` | src/web/src/app/services/category.service.ts:51-69 | 11 categories in the listed order; each has id and title equal to its name, icons `/assets/category/<name>.svg` and `/assets/category/<name>_active.svg`, and no apps; the ids are distinct |
| `CategoryService.EmptyAnswerGivesDefaults` | src/web/src/app/services/category.service.ts:19-22 | an empty server list gives exactly the default list |
| `CategoryService.ErrorGivesDefaults` | src/web/src/app/services/category.service.ts:30-33 | a failed request gives exactly the default list |
| `CategoryService.Project` | src/web/src/app/services/category.service.ts:19-28 | the `map` step gives 11 categories for an empty answer and one per shown entry otherwise; its categories carry apps exactly when the answer was non-empty (fields: `ProjectionMapsFields`) |
| `CategoryService.GetList` | src/web/src/app/services/category.service.ts:16-33 | a category carries apps exactly when it came from a successful non-empty answer (an error or an empty answer gives the app-less defaults: `ErrorGivesDefaults`, `EmptyAnswerGivesDefaults`), and the list is empty only for a non-empty answer with nothing shown |
| `CategoryService.ProjectionKeepsShownCount` | src/web/src/app/services/category.service.ts:19-28 | a non-empty answer gives as many categories as shown entries, so no more than the input; with nothing shown it gives an empty list |
| `CategoryService.ProjectionMapsFields` | src/web/src/app/services/category.service.ts:23-28 | category k has id "k" in decimal and the k-th shown entry's name as title. Its apps are copied from that entry. Its icons are that entry's icons, as many and in the same order, each prefixed with `server + '/images/'` |
| `CategoryService.ProjectionIdsDistinct` | src/web/src/app/services/category.service.ts:23-24 | the ids of the projected categories are pairwise distinct |

Two behaviours of the code worth stating plainly:
- With nothing saved, start-up restores nothing (`RestoreEmptyKeepsGeometry`); only `showWindow`'s minimum-size rule depends on the screen width.
- A non-empty server list in which no entry is shown gives an empty category list, not the defaults (`ProjectionKeepsShownCount`).

## Left out

- Proxy and channel wiring, the worker thread and the destructor's release order (`initProxy`, the `QThread` moves, `deleteLater`): these concern concurrency and Qt object ownership, not sequential logic.
- Widget, browser and theme plumbing: `initUI`, `eventFilter`, `resizeEvent`, `focusInEvent`, `onSearchAppResult` (filling and placing the completion window), `onSearchResultClicked`, `showAppDetail`, `raiseWindow`, `loadPage`, `setQCefSettings`, `onThemeChaged`, `onRegionChanged`, `onWebViewUrlChanged`, `onLoadingStateChanged` and `onFullscreenRequest`. These are thin calls into the toolkit and the embedded browser.
- Real time: the 200 ms timer is an active flag with an interval, and its expiry is an abstract event. The 20 ms single shot that hides the completion window is only logged as a request.
- What the completion window does with a forwarded Enter (`SearchCompletionWindow::onEnterPressed`) and what the search manager does with a query: SearchCompletionWindow and SearchManager are not part of this model. Both calls are only logged. Of a search result, only its name is modelled.
- The page's history: the embedded browser is not part of this model. Its history is taken to be a back stack and a forward stack, and going back or forward moves one page between them.
- The byte encoding of the saved window-state blob and of strings in D-Bus arguments and data streams. The saved state is an abstract map, and both streams are token sequences. Positions and sizes are integer pairs.
- `AppUpdateInfo::registerMetaType` and the list type `AppUpdateInfoList`: these are type-registration calls into the D-Bus library.
- Reading errors are simplified. A read that finds the wrong kind of token, or no token, yields an empty string and leaves the stream failed. The library's own error reporting is not modelled.
- The HTTP request of `getList` with its `retry(3)`, the `throttle` wrapper and `shareReplay`: these are network and caching behaviour. The server's answer is a `Result` of typed entries, so malformed answers are not modelled. In the code, an entry without `show` is silently filtered out. An entry without `name` or `apps` yields an `undefined` title or apps, with no error. Only a shown entry without `icon`, or a body that is not an array, throws inside `map` and so reaches `catchError`.
- `Search.IsInvalidSearchText`: lengths are counted in characters, whereas a QString counts UTF-16 code units. The two agree except for characters outside the Basic Multilingual Plane.
- Diagnostic logging: the `qCritical` message for a rejected search text and the `getList err` console message. Neither changes state, and neither is in the effect log.
- constructor and RestoreWindowState of `WebWindowUi.WebWindow`: a window shown maximized takes the screen's geometry, not the saved position and size, and `resize` to the invalid size -1x-1 (what a non-size value reads as) is raised to the minimum size by the toolkit. The model records the requested size and position only.
- The other files of the repository: process start-up, the generated D-Bus client for the update daemon, the settings proxy and the web application's module and environment configuration.
