# Weather widgets: the widget lifecycle of `WeatherApp`

This project models the state-keeping part of the browser weather dashboard's
`WeatherApp` class (`app.js`): the ordered list of widgets (pinned
coordinates with cached weather), the single-flight guard on widget creation,
the cache-freshness rule, duplicate and range checks, per-widget refresh
write-back, deletion by filter, confirmed clearing, the startup refresh, the
load-time coercion of stored widgets, the full rebuild of map markers that
keeps marker `i` aligned with widget `i`, and the fixed weather-code and icon
tables.

Layout:

- `wrappers.dfy` — `Option` (JavaScript's `null`, or `NaN` for parsed numbers) and `Result`.
- `weather.dfy` — module `Weather`: snapshots, the condition-code table, the icon table, rounding and formatting of the provider's answer.
- `widgets.dfy` — module `Widgets`: the `Widget` record and the pure rules over the list (freshness, validation, duplicates, write-back, lookup by id, deletion by filter, loading), with their lemmas.
- `markers.dfy` — module `Markers`: marker colours and the alignment of markers with widgets.
- `app.dfy` — module `App`: class `WeatherApp` with fields `widgets`, `markers`, `isAddingWidget`, `mapPresent`, and the operations that change them.
- `scenarios.dfy` — module `Scenarios`: call sequences on a freshly constructed application object, each stating a documented behaviour as a postcondition that the verifier checks.

The clock (`Date.now()`), the outcome of every weather request and the user's
answer to the confirmation dialog are parameters. Widget creation is split at
its one `await`: `AddNewWidget` runs up to the weather request (guard,
validation, raising the flag, appending, redrawing markers) and
`CompleteWidgetCreation` runs the rest (write-back, redraw, lowering the flag
in the `finally` block). Between the two, any other operation may run, which
is what makes the single-flight guard observable. The source keeps a reference
to the new widget object across the `await`; the model keeps it as the ghost
field `pending`. The class invariant `Valid()` states that the flag is up
exactly while a creation is pending and that the pending widget, unless it was
deleted, is the last entry with its id. Every operation is proved to keep this:
appending puts the new widget last, write-backs keep ids and coordinates, and
deletion either removes every entry with the id or keeps the same last entry.
`CompleteWidgetCreation` can only be called for the pending creation, so it
writes to the widget that creation appended.

Behaviour as the code has it:

- `weatherData` and `lastUpdated` are not kept in lock-step. A refresh clears `weatherData` first, and when its fetch fails the widget keeps its old `lastUpdated` with no weather. Only the one-way invariant "weather data implies a timestamp" is preserved by the operations (`Widgets.WeatherIsTimestamped`), and loading can break even that, since a stored timestamp 0 is coerced to `null` while its weather data is kept.
- The timestamp 0 is falsy in JavaScript: `needsRefresh` treats it as never updated and loading turns it into `null`.
- A second add while the first creation still waits for its weather is silently ignored (`Busy`), even when it would have been a duplicate.
- The unknown-code entry reads "Неизвестно" with icon category `wind`; `getWeatherIcon` maps every category without its own file to `wind.png`.

## Model

| member | source | states |
|---|---|---|
| `Weather.WeatherInfo` | app.js:467-490 | each of the 18 listed codes gives an entry whose icon category has an image of its own; every other code gives the unknown entry |
| `Weather.IconCategoryOfCode` | app.js:468-489 | each icon category is shown for exactly its group of codes (clear for 0 and 1, snow for 71, 73, 75, 85, 86, and so on), and `wind` exactly for unlisted codes |
| `Weather.ClearSkyEntry` | app.js:469 | code 0 is "Ясно" with the `clear` icon, shown as `clear.png` |
| `Weather.WeatherIcon` | app.js:492-506 | a category with its own file is shown by the file named after it; any other string (including `default` and `wind`) by `wind.png` |
| `Weather.Round` | app.js:459 | the result is the nearest integer, ties going up: `x - 0.5 < n <= x + 0.5` |
| `Weather.RoundingExamples` | app.js:459 | 21.4 rounds to 21 and -2.5 to -2 |
| `Weather.FormatWeatherData` | app.js:454-465 | temperature within half a degree of the reading, humidity and wind passed through, description and icon from the code table; a known code shows its own icon, an unknown one `wind.png` |
| `Widgets.NeedsRefreshMeaning` | app.js:66-76 | stands for the predicate `NeedsRefresh`: a refresh is due iff the timestamp is unset or 0, or more than 3600000 ms old; exactly one hour old is still fresh |
| `Widgets.NeverUpdatedNeedsRefresh` | app.js:67-69 | a widget with no timestamp always needs a refresh |
| `Widgets.StalenessPersists` | app.js:71-75 | once stale, a widget stays stale as time moves on |
| `Widgets.WrittenBackIsFreshForAnHour` | app.js:428-431 | after a successful write-back at a nonzero time the widget is fresh up to one hour later inclusive and stale one millisecond after |
| `Widgets.ValidateCoordinatesMeaning` | app.js:508-517 | stands for the predicate `ValidateCoordinates`: a pair is accepted iff neither value is NaN and latitude is in [-90, 90] and longitude in [-180, 180], bounds included |
| `Widgets.FindNear` | app.js:519-524 | a widget is found iff some stored widget is strictly within 0.001 of the pair on both axes, and the one found is such a widget |
| `Widgets.IsDuplicateWidget` | app.js:519-524 | a pair is a duplicate iff some stored widget is strictly within 0.001 of it on both axes |
| `Widgets.ValidateWidgetInputs` | app.js:302-317 | invalid coordinates are reported first; a duplicate error means a stored widget is within tolerance; success returns the parsed pair, in range and away from every stored widget |
| `Widgets.AppendKeepsSeparation` | app.js:312-314 | appending a pair that is not a duplicate keeps every two stored widgets at least 0.001 apart on some axis |
| `Widgets.CreateNewWidget` | app.js:403-411 | the new widget has the given id and coordinates, no weather and no timestamp, and needs a refresh at any time |
| `Widgets.WrittenBack` | app.js:424-433 | a fetched snapshot replaces the weather and stamps the arrival time; a failed fetch changes nothing; id and coordinates never change |
| `Widgets.WriteBackKeepsInvariants` | app.js:428-431 | writing back one entry keeps all pins, separation, ranges and the weather-implies-timestamp invariant |
| `Widgets.ClearWeatherKeepsInvariants` | app.js:235 | clearing one entry's weather keeps all pins, separation, ranges and the weather-implies-timestamp invariant |
| `Widgets.IndexOfId` | app.js:230 | the index found holds the id and no earlier entry does; none found means no entry has the id |
| `Widgets.LastIndexOfId` | app.js:361-366 | the index found holds the id and no later entry does; none found means no entry has the id |
| `Widgets.AppendedIsLastWithId` | app.js:370-371 | a widget just pushed is the last entry with its id |
| `Widgets.SamePinsKeepLastWithId` | app.js:429-430 | updating weather in place keeps the last entry with a pending widget's id that widget |
| `Widgets.WithoutOtherIdKeepsLast` | app.js:527 | filtering out another id keeps the same widget as the last entry with a given id, or none in both |
| `Widgets.WithoutIdKeepsLastWithId` | app.js:527 | after deletion the last entry with a pending widget's id is still that widget, or no entry has the id |
| `Widgets.WithoutId` | app.js:527 | the result holds exactly the widgets whose id differs, and is no longer than the input |
| `Widgets.WithoutIdAppend` | app.js:527 | filtering distributes over concatenation, so the kept widgets keep their relative order |
| `Widgets.WithoutAbsentId` | app.js:527 | deleting an id no widget has leaves the list as it was |
| `Widgets.WithoutIdIdempotent` | app.js:526-531 | deleting the same id twice gives the same list as deleting it once |
| `Widgets.WithoutIdKeepsSeparation` | app.js:527 | deletion keeps every two stored widgets at least 0.001 apart on some axis |
| `Widgets.WithoutIdKeepsPointwise` | app.js:527 | deletion keeps all coordinates in range and the weather-implies-timestamp invariant |
| `Widgets.CoerceEntry` | app.js:555-560 | a loaded entry keeps its id, coordinates and weather; its timestamp becomes null iff it was missing or 0 |
| `Widgets.LoadWidgets` | app.js:550-566 | nothing stored leaves the list as it was, malformed data empties it, stored entries are coerced one by one in order |
| `Widgets.SaveLoadRoundTrip` | app.js:542-566 | saving then loading gives back the same list when no timestamp is 0 |
| `Markers.MarkerColor` | app.js:224-227 | every marker colour comes from the eight-colour palette |
| `Markers.ColorsCycle` | app.js:226 | colours repeat every eight positions |
| `Markers.NearbyMarkersDiffer` | app.js:225-226 | markers fewer than eight positions apart get different colours |
| `Markers.MarkerFor` | app.js:211-222 | a widget's marker carries its id and stands at its coordinates, in a palette colour |
| `Markers.SamePinsKeepAlignment` | app.js:215-220 | markers depend only on ids and coordinates, so a weather write-back keeps them aligned |
| `App.StartupRefreshed` | app.js:571-578 | a widget fresh at the check time is untouched; a stale one gets its fetched weather and arrival time, or stays as it was when its fetch failed |
| `App.WeatherApp.constructor` | app.js:4-21 | starts with the loaded list, no markers, no map and the flag down, in a valid state |
| `App.WeatherApp.InitMap` | app.js:44-64 | once the map exists, markers are aligned with the list |
| `App.WeatherApp.AddMarkerToMap` | app.js:133-141 | with a map, appends the widget's marker; without one, does nothing |
| `App.WeatherApp.RenderMarkers` | app.js:115-131 | without a map nothing changes; with one, afterwards there is one marker per widget and marker `i` is widget `i`'s, coloured `colors[i % 8]` |
| `App.WeatherApp.ShowOnMap` | app.js:755-767 | the marker opened, if any, is one of the map's markers |
| `App.WeatherApp.ShowOnMapOpensOwnMarker` | app.js:755-764 | with aligned markers, "show on map" opens a marker iff the id is listed, and that marker belongs to the widget asked for and stands at its coordinates |
| `App.WeatherApp.AddNewWidget` | app.js:290-300 | changes nothing while a creation is in flight; otherwise rejects invalid or duplicate input without change and with the flag down, or appends exactly one new widget without weather or timestamp, raises the flag and records it as pending; keeps separation, ranges and markers aligned |
| `App.WeatherApp.ProcessNewWidget` | app.js:340-351 | raises the flag and appends the new widget at the end; the list stays separated when the pair is not a duplicate |
| `App.WeatherApp.ExecuteWidgetCreation` | app.js:360-379 | builds the widget, appends it and realigns the markers |
| `App.WeatherApp.AddWidgetToStorage` | app.js:370-374 | appends the widget at the end of the list |
| `App.WeatherApp.CompleteWidgetCreation` | app.js:381-386 | callable only for the pending creation; writes the fetch outcome back to the entry holding the pending widget's pin, if still listed, and nowhere else; keeps every pin (the widget stays even when the fetch failed); realigns markers, clears the pending creation and lowers the flag |
| `App.WeatherApp.ResetAddButton` | app.js:397-401 | the flag is down afterwards |
| `App.WeatherApp.UpdateWidgetWeather` | app.js:424-433 | only the entry written changes, per the write-back rule; markers stay aligned and the invariants hold |
| `App.WeatherApp.RefreshWidget` | app.js:229-240 | an unknown id changes nothing; otherwise only the first widget with the id changes: its weather becomes the fetch outcome, its timestamp the arrival time on success and the old one on failure; the count is unchanged |
| `App.WeatherApp.LoadInitialWeatherData` | app.js:568-584 | every widget stale at the check time is refreshed from its own fetch, the others keep their cache; the count is unchanged and markers are rebuilt once |
| `App.WeatherApp.DeleteWidget` | app.js:526-531 | the list becomes exactly the widgets with another id, in order; markers are realigned; separation and ranges are kept |
| `App.WeatherApp.ClearAllWidgets` | app.js:533-540 | empties list and markers iff confirmed, otherwise changes nothing |
| `Scenarios.ClearSkyCreation` | app.js:360-368 | creating at (56.8389, 60.6057) with code 0 and 21.4 degrees stores clear sky, 21 degrees and an arrival time not before the creation time |
| `Scenarios.DuplicateRejected` | app.js:312-314 | a pin within 0.001 on both axes of a stored one is rejected as a duplicate and the list keeps one widget |
| `Scenarios.SecondAddWhileInFlight` | app.js:290-291 | a second add while the first waits is ignored; after a failed fetch the first widget stays and the flag is down |
| `Scenarios.FailedRefreshKeepsTimestamp` | app.js:235-236 | a failed refresh leaves no weather but the old timestamp |
| `Scenarios.StartupWithOneFailure` | app.js:568-580 | with three stale widgets and the second fetch failing, the other two get weather and all three stay |

## Left out

- The weather request (`fetchWeatherData`: URL, HTTP status, JSON decoding, the alert on failure): its outcome is an `Option<Snapshot>` parameter, `None` for failure.
- `Date.now()`: the clock is a parameter; the widget id is supplied by the caller.
- `confirm` and `alert`: the confirmation is a `bool` parameter; alerts are not modelled.
- Persisting to local storage (`saveWidgetsToStorage`, `JSON.stringify`): saving has no effect on the model's state. Loading abstracts `JSON.parse` as a `SavedBlob` (absent or empty string, malformed, or a parsed list); `parseFloat` of stored coordinates, so string coordinates and values that parse to `NaN`, is not modelled.
- `parseFloat` of the input fields: inputs arrive parsed, `None` for `NaN`; an infinite value, which the range check rejects, is represented by `None` too.
- All HTML and DOM work: `renderWidgets` and everything it calls, the `generate*`/`build*` templates, `createWidgetElement`, `highlightWidget`, `bindEvents`, `bindWidgetEvents`, `prepareAddButton`, `clearInputs`, `finalizeWidgetCreation`, `showMapError`, `formatLastUpdateTime`.
- The Yandex map library: `initYandexMap`, the 5-second wait and `retryMapLoad` are reduced to `InitMap` setting `mapPresent`; the `mapLoaded` flag, which nothing reads, is not kept; map panning (`setCenter`, `centerMapOnWidget`, `flyToWidget`) and `calculateMapCenter` (floating-point averaging only used to pan) have no state to model.
- Marker content: the balloon HTML and the hint with the temperature are not part of `Marker`, which keeps the widget id, the coordinates and the colour.
- Exceptions inside widget creation (DOM failures caught by `handleWidgetCreationError`): the modelled steps cannot fail, so only the normal path of the `finally` block is modelled.
- Concurrency: `refreshWidget` runs as one step with its fetch outcome given, so nothing interleaves with its `await`; the `Promise.all` fan-out of the startup refresh is a sequential loop, which gives the same result because each update touches only its own widget.
- `getWeatherInfo` takes integer codes; the source's fallback for non-integer or missing codes is not modelled. Object-prototype keys such as `constructor` given to `getWeatherIcon` are not modelled.
- Floating-point arithmetic: coordinates, humidity and wind are exact reals, so the 0.001 tolerance and the range bounds are compared exactly.
- Widgets.FindNear: does not state that the widget found is the first near one in list order; callers only use whether one was found.
