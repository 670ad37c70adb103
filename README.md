# smartHomeV2 dashboard core, modelled in Dafny

The dashboard has three parts with real logic, and this project models each of them.

- **Google Calendar widget** (`src/components/calendar.js`). The widget holds an OAuth access token. It builds the Calendar API request for upcoming events and reads the reply. It groups the events by UTC day, sorts each day by start time, and labels each event "All day" or with its time range. Its Connect, Refresh and Sign out buttons follow the token, and a five-minute interval refreshes the list until the widget is unmounted.
- **Lazy tab host** (`src/lib/tabs.js`). The host marks the active tab's buttons and loads a tab's view module on first activation. It gives the view a fallback for every hook the module does not export, then mounts it once into the shared target and registers it. A later activation hides every registered view and shows the chosen one.
- **Photo view** (`src/views/photo.js`). A module-level state record drives one image element. Its source cycles through the bundled images on a single interval timer, whose cadence comes from `window.PHOTO_INTERVAL_SEC` and defaults to 30 seconds.

Files:

- `wrappers.dfy`: `Option` and `Result`.
- `decimal.dfy`: JavaScript's `String(n)` for integral numbers and `parseInt(s, 10)`.
- `sorting.dfy`: a stable sort by an integer rank, used for `Array.prototype.sort` with a numeric comparator. It also holds the code-unit string order and a sort of key/value pairs by key.
- `calendar_events.dfy`: events, `fmtTimeRange` and `groupByDate`, with the grouping specification and its properties.
- `calendar_fetch.dfy`: `fetchEvents`, covering the request it builds and how it interprets the reply.
- `calendar_widget.dfy`: `renderList` and the state machine of `mountGoogleCalendar`, as class `Widget`.
- `tabs.dfy`: `initTabs` and its closures, as class `TabHost`.
- `photo.dfy`: the photo view's state, as class `Slideshow`.

Some behaviour of the widget is easy to misread:

- The widget shows a list of upcoming events, not a month grid.
- It has no silent token renewal: a token is obtained only through the Connect button's consent prompt.
- It groups events by UTC day (`toISOString().slice(0, 10)`), not by local day.
- Unmounting clears only the auto-refresh interval. A fetch that settles afterwards still renders into the list (`Widget.OnFetchSettled`). So does a fetch that settles after sign-out, overwriting "Signed out.".

## Model

| member | source | states |
|---|---|---|
| Decimal.ToDecimal | src/components/calendar.js:54 | No contract of its own. It is `String(maxResults)` written as plain decimal digits with a leading "-" for negatives, and its meaning is fixed by the `Decimal.ParseIntReadsDecimal` and `Decimal.DigitsValueOfNatDigits` rows. |
| Decimal.ParseInt | src/views/photo.js:7 | No contract of its own. It is `parseInt(s, 10)`: skip whitespace, read an optional sign, then the longest run of digits, with NaN as `None`. Its meaning is fixed by the `Decimal.ParseIntReadsDecimal`, `Decimal.ParseIntRejects` and `Decimal.TrimStartSkipsWhitespace` rows. |
| Decimal.ParseIntReadsDecimal | src/components/calendar.js:54 | `parseInt` reads back `String(n)` for every integer `n`. This holds with any leading JavaScript whitespace and any tail that does not start with a digit. |
| Decimal.ParseIntToDecimal | src/components/calendar.js:54 | `parseInt(String(n), 10) == n` for every integer `n`, with `String(n)` as plain digits (see `Decimal.ToDecimal` under Left out). |
| Decimal.ParseIntRejects | src/views/photo.js:7 | `parseInt` is NaN when, after whitespace, the text neither starts with a digit nor with a sign. |
| Decimal.DigitsValueOfNatDigits | src/components/calendar.js:54 | The decimal numeral of a natural number has that number as its value. |
| Decimal.TrimStartSkipsWhitespace | src/views/photo.js:7 | Leading ECMAScript whitespace and line terminators do not change what `parseInt` reads. |
| Sorting.SortByRankCorrect | src/components/calendar.js:41-43 | The per-day sort by start is ordered by rank and a permutation of its input. It is stable: the elements of each rank keep their input order. |
| Sorting.SortByKeyCorrect | src/components/calendar.js:44 | Sorting the day entries by key gives strictly ascending keys and a permutation of the entries, provided the keys are distinct (map keys are). |
| Sorting.StrLessIrreflexive | src/components/calendar.js:44 | The comparison used for `localeCompare` never puts a string before itself. |
| Sorting.StrLessTransitive | src/components/calendar.js:44 | That comparison is transitive. |
| Sorting.StrLessTotal | src/components/calendar.js:44 | Any two different strings are ordered one way or the other. |
| CalendarEvents.Instant | src/components/calendar.js:34-35 | No contract of its own. It is `new Date(b.dateTime \|\| b.date)`: the `dateTime` instant, else the parsed `date`, else an Invalid Date (`None`). Its meaning is fixed by the `CalendarEvents.FmtTimeRange` and `CalendarEvents.AllDayEventInOwnDate` rows. |
| CalendarEvents.GroupKey | src/components/calendar.js:34-36 | No contract of its own. It is the day key `toISOString().slice(0, 10)` of that instant, `None` where `toISOString` throws. Its meaning is fixed by the `CalendarEvents.GroupByDate`, `CalendarEvents.EventInItsDay` and `CalendarEvents.AllDayEventInOwnDate` rows. |
| CalendarEvents.FmtTimeRange | src/components/calendar.js:16-29 | The label is "All day" exactly when the start has no `dateTime`. Otherwise it is the start `dateTime` and the end instant (`dateTime`, else `date`). |
| CalendarEvents.GroupByDate | src/components/calendar.js:31-45 | The call succeeds exactly when every event's start has an instant. The result then has strictly ascending days and exactly the events' days, and each day holds its own events sorted by start. Otherwise the error is the index of the first event whose `toISOString` throws. |
| CalendarEvents.CollectDays | src/components/calendar.js:33-39 | The first loop maps each day seen to its events in input order, and keeps the days once each in first-seen order. It stops at the first event without a start instant. |
| CalendarEvents.DayEntries | src/components/calendar.js:41-44 | For each day in map order, the entry is that day with its events sorted by start. |
| CalendarEvents.DayMapGrow | src/components/calendar.js:37-38 | One loop step keeps the loop state equal to the grouping of the events read so far. |
| CalendarEvents.DayMapStep | src/components/calendar.js:37-38 | Appending an event to its day's array, or creating a new day, keeps the map equal to the per-day buckets. |
| CalendarEvents.SortedEntriesGroup | src/components/calendar.js:41-44 | Sorting the per-day entries by day yields the grouping of all events. |
| CalendarEvents.BucketMembers | src/components/calendar.js:37-38 | An event is in a day's bucket exactly when it is an input event that starts on that day. |
| CalendarEvents.KeySetHasNonEmptyBuckets | src/components/calendar.js:37 | A day is a map key exactly when its bucket is non-empty. |
| CalendarEvents.GroupingIsTotal | src/components/calendar.js:31-45 | The groups together hold exactly the input events, as a multiset, so their sizes add up to the number of events. |
| CalendarEvents.GroupMembership | src/components/calendar.js:33-38 | An event is in day `d`'s group exactly when it is an input event whose start falls on `d`. |
| CalendarEvents.EventInItsDay | src/components/calendar.js:33-38 | Every input event lies in the group of its own start day and in no other group. |
| CalendarEvents.DayOrderedByStart | src/components/calendar.js:41-43 | Within a day, starts are non-decreasing, and events with equal starts keep their input order. |
| CalendarEvents.DaysAscending | src/components/calendar.js:44 | Days are pairwise distinct and ascending. |
| CalendarEvents.AllDayEventInOwnDate | src/components/calendar.js:34-38 | Assume `Date` reads every valid calendar date "YYYY-MM-DD" (Gregorian month lengths and leap years) as that UTC day. Then an all-day event whose date is a valid calendar date lies in the group of exactly that date, and in no other group. |
| CalendarFetch.BuildRequest | src/components/calendar.js:47-59 | The calendar id defaults to "primary". The query is exactly `timeMin`=now, `singleEvents`=true, `orderBy`=startTime, `maxResults`, `showDeleted`=false, in that order. `maxResults` reads back as the requested number, defaulting to 50. The header is `Bearer <token>`. |
| CalendarFetch.QueryOfFive | src/components/calendar.js:50-56 | In a query of five distinct names, the names come out in order and each one is found with its own value. |
| CalendarFetch.FetchResult | src/components/calendar.js:57-62 | A network failure rejects. A status outside 200-299 rejects with `Calendar HTTP <status>`. A body that does not decode rejects, and so does a JSON `null` body, as reading its `items` throws. Otherwise the result is `items` when it is an array, else the empty list. |
| CalendarWidget.MountCheck | src/components/calendar.js:91-98 | Mounting throws exactly when the target is missing. It goes on exactly when the target exists and the client id is non-empty. |
| CalendarWidget.RenderList | src/components/calendar.js:65-89 | No events show "No upcoming events". Otherwise the list shows the agenda of `groupByDate`, or fails exactly when some event has no start instant. |
| CalendarWidget.SettledView | src/components/calendar.js:142-148 | After the fetch, the list is "Failed to load events." exactly when the fetch rejected or rendering threw. Otherwise it is the rendered events. |
| CalendarWidget.Widget.constructor | src/components/calendar.js:101-121 | The fresh shell has no token. Only Connect is enabled and labelled "Connect Google", the list is empty, and the interval is armed. |
| CalendarWidget.Widget.OnConnectClick | src/components/calendar.js:151-153 | A click on Connect asks for a token with the "consent" prompt. It happens exactly while no token is held, as the button is disabled otherwise. |
| CalendarWidget.Widget.Refresh | src/components/calendar.js:139-149 | Without a truthy token nothing changes. With one, the list shows "Loading…" and one request issues for 100 events of the primary calendar. |
| CalendarWidget.Widget.OnTokenResponse | src/components/calendar.js:125-136 | An error response changes nothing. A token is stored, which enables Refresh and Sign out and makes Connect disabled and labelled "Connected". Then `refresh` runs. |
| CalendarWidget.Widget.OnSignOutClick | src/components/calendar.js:157-159 | Without a truthy token nothing happens. With one, a revoke of that token is requested. |
| CalendarWidget.Widget.OnRevokeDone | src/components/calendar.js:159-166 | The revoke completion drops the token and restores the initial buttons. The list shows "Signed out.". |
| CalendarWidget.Widget.OnFetchSettled | src/components/calendar.js:142-148 | A settled request renders its result into the list, whatever the token is by then. The rest of the state is untouched. |
| CalendarWidget.Widget.OnAutoRefreshTick | src/components/calendar.js:170 | A tick refreshes only while the interval is armed and a truthy token is held. |
| CalendarWidget.Widget.Unmount | src/components/calendar.js:172 | Unmounting clears the interval. |
| Tabs.WithFallbacks | src/lib/tabs.js:54-58 | Each hook of the API is the module's own when it exports one, else the host's non-throwing fallback. |
| Tabs.InitialTab | src/lib/tabs.js:88-89 | The initial tab is a truthy `defaultTab`, else a non-empty first button's tab, else none. |
| Tabs.Hides | src/lib/tabs.js:34-38 | `hideAll` issues one `hide` per registered tab, in registration order. |
| Tabs.TabHost.constructor | src/lib/tabs.js:13-22 | The host starts with the buttons found and an empty registry. |
| Tabs.TabHost.SetActiveButton | src/lib/tabs.js:25-31 | Exactly the buttons whose tab equals `tab` carry the active attribute afterwards. |
| Tabs.TabHost.HideAll | src/lib/tabs.js:34-38 | Hides every registered view in registration order. A throwing `hide` is swallowed. |
| Tabs.TabHost.Activate | src/lib/tabs.js:41-77 | A tab without a loader changes nothing. Otherwise its buttons become active. A registered tab's activation hides all views and shows it. An unregistered tab is loaded, the target cleared, the view mounted, registered, all views hidden and it shown. A failed load or a throwing mount leaves the registry unchanged. Registry entries are only ever added. |
| Tabs.InitTabs | src/lib/tabs.js:13-19 | No host exists without the bar, a button or the target. Otherwise a fresh host is built and the initial tab's buttons are marked at once. |
| Photo.IntervalMs | src/views/photo.js:7 | The interval is `parseInt(setting) * 1000` for a non-zero parse. It is 30 000 ms for NaN, zero or an unset setting, and never 0. |
| Photo.IntervalOfDecimal | src/views/photo.js:7 | A setting written as a non-zero integer `n` gives `n * 1000` ms. |
| Photo.IntervalOfZero | src/views/photo.js:7 | Any setting read as zero falls back to 30 seconds: a "0" after whitespace and before non-digit text. |
| Photo.NextIndex | src/views/photo.js:29-36 | The interval step advances the index by one and wraps to 0 after the last image. |
| Photo.FirstRoundInOrder | src/views/photo.js:29-36 | From a fresh start, step `j` of the first round shows image `j`. |
| Photo.IndexAfterPeriodic | src/views/photo.js:29-36 | The slideshow is periodic with period equal to the number of images. |
| Photo.Slideshow.constructor | src/views/photo.js:2-8 | The initial state has no root, no image, no timer, index 0, and the interval from the setting. |
| Photo.Slideshow.Stop | src/views/photo.js:10-12 | Afterwards no timer is held or armed. |
| Photo.Slideshow.Start | src/views/photo.js:14-37 | Without an image element or images nothing changes. Otherwise image 0 is shown, any prior timer is cleared and exactly one fresh timer runs. |
| Photo.Slideshow.ShowImage | src/views/photo.js:29-32 | `show(i)` sets the index to `i` modulo the image count and shows that image. |
| Photo.Slideshow.OnTick | src/views/photo.js:36 | A tick of the armed timer steps to the next image. |
| Photo.Slideshow.Mount | src/views/photo.js:39-50 | Mounting builds a shown root with a fresh image, then starts the slideshow. |
| Photo.Slideshow.Show | src/views/photo.js:52-55 | Show displays the root. It restarts from image 0 only when no timer runs. |
| Photo.Slideshow.Hide | src/views/photo.js:57-60 | Hide hides the root and stops the timer, keeping the index and the image. |

## Left out

- DOM markup, CSS classes and HTML strings. Lists, buttons and targets are reduced to the state they show: `ListView`, button flags and labels, active attributes, and a trace of the effects on views.
- `loadScriptOnce`, the Google Identity Services script and the token client's configuration (client id, read-only calendar scope) are left out because they are browser I/O. The provider is reduced to the calls the widget makes (`ProviderCall`) and the responses it receives (`TokenResponse`).
- A token response whose `error` is the empty string is falsy in the source, so that response is treated as a grant of its `access_token`. `TokenResponse.TokenError` always changes nothing; an error response with an empty `error` is not modelled.
- The missing client-id branch is modelled only as `MountCheck`. The `console` output and the `import.meta.env` read are left out.
- `fetch`, `URL`, `encodeURIComponent` and `r.json()` are left out because they are network and runtime I/O. A reply is a status plus the decoded `items` field, or a decoding failure, and the request keeps the calendar id un-encoded.
- `Date` parsing, `toISOString`, `toLocaleTimeString` and `toLocaleDateString` are locale and floating-point runtime code. They are reduced to `DateFns`, an abstract UTC-day function and date parser. Event `dateTime` values are modelled as already-parsed instants, so a malformed `dateTime` string is not modelled. A `date` that does not parse is the one Invalid Date case.
- `CalendarEvents.FmtTimeRange` returns the two instants rather than the locale-formatted `HH:MM – HH:MM` text.
- `renderList`'s per-event HTML is left out: the "(No title)" fallback, the location line and the day headings.
- `localeCompare` is modelled as code-unit order, which agrees with locale collation on the `YYYY-MM-DD` keys it compares for years 0000–9999. Outside that range `toISOString` writes a signed six-digit year ("+010000-01-01"), and code-unit order can disagree with collation there.
- `Sorting.SortByRank` and `Sorting.SortByKey` are value-level sorts. They do not model the in-place `Array.prototype.sort` on the day arrays, and `groupByDate`'s result does not alias the arrays in its map.
- `Decimal.ToDecimal` writes plain digits for every integer. From 10^21 in magnitude `String` switches to exponent form ("1e+21", which `parseInt` reads as 1), so the round trip `Decimal.ParseIntToDecimal` holds in JavaScript only below that. The widget writes 50 or 100.
- `Decimal.ParseInt`: digit strings of any length are read exactly. JavaScript's rounding to a double above 2^53 and its `-0` are not modelled.
- `Photo.IntervalMs`: a negative setting gives a negative interval, as the source computes. `setInterval`'s clamping of such a delay is not modelled.
- Timers, the microtask queue and `async` suspension are browser scheduling. They are reduced to explicit events: `OnTick`, `OnAutoRefreshTick`, `OnFetchSettled`, `OnRevokeDone` and `OnTokenResponse`. `Tabs.InitTabs` returns the initial tab and leaves its deferred `activate` to the caller.
- `Tabs.TabHost.Activate` takes the loader's result as a parameter and runs to completion. Two activations interleaving across the `await` of the loader are not modelled.
- `Object.values(registry)` is taken in insertion order. JavaScript lists integer-like keys first; tab names like that are not modelled.
- In the photo view, `import.meta.glob` is a build-time list of image URLs, given to the constructor. Its failure path, which leaves the list empty, is covered by that list being empty.
- `Photo.Slideshow.Mount` does not model the stale root and image that a second `mount` leaves in the document. The model keeps only the newest ones.
- `src/main.js` and `src/components/timedate.js` are not part of this model.
