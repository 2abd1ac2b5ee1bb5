# Sky Stats weather proxy and dashboard logic, in Dafny

This project models the decision logic of the Sky Stats weather dashboard:

- the **edge proxy** in front of the upstream weather provider
  (`src/app/api/weather/route.ts`): the configuration check, the per-client
  fixed-window rate limiter (60 requests per 60 000 ms, keyed by
  `x-forwarded-for`, then `x-real-ip`, then a shared `"unknown"` bucket), origin
  validation (the `Origin` header of RFC 6454, section 7, falling back to the
  origin of the `Referer`), routing of the four endpoints (`weather`,
  `forecast`, `geocoding`, `air-pollution`) with their 400 messages, the
  mapping of upstream failures (401 and 404 passed on, everything else a
  generic 500), the success headers, and the `OPTIONS` preflight with its CORS
  origin selection;
- the **search history** of `src/utils/weather.ts` (case-insensitive
  deduplication, most recent first, at most five entries), with the compass,
  day/night and Fahrenheit helpers of the same file;
- the **home page** handlers of `src/app/page.tsx`: a search with its
  blank-input guard and recent-searches update, the unit toggle and the
  display-option switches;
- the **daily forecast** selection of `src/components/ForecastCard.tsx`: the
  first entry per calendar date, then the five days after the first.

Everything the code cannot decide by itself is a parameter: the clock
(`now`), the environment (`Config`: `WEATHER_API_KEY`, `VERCEL_URL`), the
request headers and query, the URL parser behind `new URL(referer).origin`
(`urlOrigin`, `None` where it throws), the upstream call (`fetch`, from the
URL to a transport failure or a status with a body that parses as JSON or
not), the outcome of a page search, and the locale's calendar date of a
forecast entry (`dateKey`). Numbers are exact reals and unbounded integers.
A JavaScript `null` is `None`; JavaScript truthiness is `Truthy`, so an empty
header, query parameter or setting counts as missing, as it does in the code.

Files: `wrappers.dfy` (Option, Truthy), `rate_limit.dfy`, `uri_encoding.dfy`,
`gateway.dfy`, `search_history.dfy`, `weather_utils.dfy`, `home_page.dfy`,
`forecast_card.dfy`, one module each.

The city is percent-encoded as `encodeURIComponent` does (UTF-8 bytes, upper-case
hex digits); the decoding of RFC 3986, section 2.1, is modelled beside it as the
inverse the encoding is proved against.

The rate table is a class whose `map` field `Check` rewrites in place; its
invariant (every count between 1 and 60) is `Valid()`. `Get` runs the gates of
`GET` as early returns over that object and is proved equal to the pure
`Handle`, whose contract states the gates in order: the credential (500), the
rate limiter (429), then through `Respond` the origin (403), the routing (400)
and the upstream answer as `Shape` maps it. The search history store and
the home page are classes whose handlers update their fields; the forecast
`reduce` and `findIndex` are loops.

## Model

| member | source | states |
|---|---|---|
| `RateLimit.CheckRate` | src/app/api/weather/route.ts:14-29 | a missing entry, or one more than 60 000 ms old (strictly), restarts at count 1 and admits; inside the window the request is admitted exactly when the count was below 60, which then grows by exactly one, and a rejection leaves the entry as it was; no other client's entry is created or changed; every count stays within 1..60 |
| `RateLimit.RateLimiter.constructor` | src/app/api/weather/route.ts:10 | the table starts empty and valid |
| `RateLimit.RateLimiter.Check` | src/app/api/weather/route.ts:14-29 | the in-place update of the table is the one `CheckRate` describes, and the count invariant is kept |
| `RateLimit.ReplayInWindow` | src/app/api/weather/route.ts:23-28 | requests inside a window that already counted `done` requests are admitted exactly while `done + k < 60` |
| `RateLimit.BurstWithinWindow` | src/app/api/weather/route.ts:11-28 | from a missing or expired entry, a burst of requests all within 60 000 ms of its first has exactly its first 60 admitted: the 60th passes, the 61st is refused |
| `RateLimit.WindowResets` | src/app/api/weather/route.ts:18-21 | a client refused in one window is admitted again, with count 1, once the window has elapsed |
| `Gateway.AllowedOrigins` | src/app/api/weather/route.ts:4-8 | the allow-list is the development origin, then the production origin, then `https://` + `VERCEL_URL` when that is set; no entry is empty |
| `Gateway.ClientKey` | src/app/api/weather/route.ts:50 | the rate-limit key is `x-forwarded-for`, else `x-real-ip`, else `"unknown"`, and is never empty |
| `Gateway.ValidateOrigin` | src/app/api/weather/route.ts:31-39 | with neither header the request is refused; an `Origin` header decides alone, by allow-list membership, whatever the `Referer`; otherwise the `Referer`'s parsed origin decides, and a `Referer` that is not a URL gives no verdict (the parser throws) |
| `Gateway.SelectCorsOrigin` | src/app/api/weather/route.ts:149-152 | an allow-listed request origin is echoed; otherwise the first allowed origin; the result is allow-listed whenever the list starts with a non-empty origin |
| `Gateway.Route` | src/app/api/weather/route.ts:66-127 | no endpoint gives "Missing endpoint parameter"; `weather`, `forecast`, `geocoding` are routed exactly when a city is given, else "Missing city parameter"; `air-pollution` exactly when both lat and lon are given, else "Missing lat/lon parameters"; any other endpoint gives "Invalid endpoint" |
| `UriEncoding.EncodeUriComponent` | src/app/api/weather/route.ts:89 | every character of the encoded city is an unescaped character, `%` or an upper-case hex digit, so it carries no `&`, `=`, `#` or `?`; text made of unescaped characters is unchanged |
| `UriEncoding.DecodeUriComponent` | src/app/api/weather/route.ts:89 | the receiver's decoding (RFC 3986, section 2.1, over UTF-8): text without `%` comes back unchanged and the decoded text is never longer |
| `UriEncoding.DecodeEscapeOfChar` | src/app/api/weather/route.ts:89 | the escape sequences of the UTF-8 bytes of any character that must be escaped decode to that character, taking exactly the characters written |
| `UriEncoding.DecodeEncode` | src/app/api/weather/route.ts:89 | decoding the encoded city gives back the city exactly, for every string |
| `UriEncoding.EncodeInjective` | src/app/api/weather/route.ts:89 | two different cities never give the same `q` value |
| `Gateway.UpstreamUrl` | src/app/api/weather/route.ts:89-119 | a city URL is the endpoint path with `?q=`, the encoded city (holding no `&`), then the fixed parameters starting with `&`, the credential last; the air-pollution URL passes lat and lon through unchanged |
| `Gateway.Shape` | src/app/api/weather/route.ts:129-161 | upstream 401 gives 401 "Invalid API key", 404 gives 404 "Location not found"; a 2xx with a parseable body gives 200 with that body unchanged and the caching and CORS headers; everything else, a transport failure included, gives the generic 500 |
| `Gateway.Respond` | src/app/api/weather/route.ts:59-168 | after admission: 403 exactly when the origin check refuses; 500 when the `Referer` cannot be parsed; 400 exactly when the origin is accepted and routing fails, with routing's message; an accepted origin and a routed query answer the upstream reply for `UpstreamUrl` of the target, mapped by `Shape`; never 429 |
| `Gateway.Handle` | src/app/api/weather/route.ts:41-170 | a missing API key answers 500 and leaves the table untouched; otherwise the client's entry is counted exactly once, before anything else; 429 exactly when the limiter refuses; an admitted request gets `Respond`'s answer (403, 400, or the mapped upstream reply); a 403 has consumed quota; a 200 carries an allow-listed CORS origin and the five-minute `Cache-Control`; only the client's entry changes and the table invariant is kept |
| `Gateway.Get` | src/app/api/weather/route.ts:41-170 | the chain of early returns over the shared limiter produces the response and table that `Handle` describes, and keeps the limiter valid |
| `Gateway.Options` | src/app/api/weather/route.ts:172-187 | the preflight always answers 200 with no body and the CORS headers; the origin is echoed when allow-listed and is otherwise the development origin, so it is always allow-listed; it takes no rate table |
| `SearchHistory.Lower` | src/utils/weather.ts:76-77 | after `toLowerCase` no ASCII capital is left; each capital becomes the same letter in lower case, every other character is kept, in place |
| `SearchHistory.LowerChar` | src/utils/weather.ts:76-77 | one character's lower-case form: never a capital, the same letter for a capital, the character itself otherwise |
| `SearchHistory.LowerIdempotent` | src/utils/weather.ts:76-77 | lower-casing twice is lower-casing once |
| `SearchHistory.MatchIndex` | src/utils/weather.ts:75-78 | `findIndex` gives -1 exactly when no entry matches city and country case-insensitively, and otherwise the first matching position |
| `SearchHistory.FindIndex` | src/utils/weather.ts:75-78 | the search loop returns the position `MatchIndex` specifies |
| `SearchHistory.Spliced` | src/utils/weather.ts:80-82 | `splice(i, 1)` after a match removes exactly one entry, the one at `i`, keeping the others in order (those past `i` move up one place); with no match (-1) the history is unchanged |
| `SearchHistory.Added` | src/utils/weather.ts:69-88 | the new entry comes first; the length grows by one unless a match was replaced and shrinks by one past the cap of 5, so a history of at most 5 stays at most 5; the other entries keep their order, those before the removed match moving down one place |
| `SearchHistory.AddedMatchesOnce` | src/utils/weather.ts:75-84 | on a history without case-insensitive duplicates, the new entry is the only match afterwards and there are still no duplicates |
| `SearchHistory.OldestDropped` | src/utils/weather.ts:84-88 | a full history without a match loses its last, oldest, entry |
| `SearchHistory.SearchHistoryStore.constructor` | src/utils/weather.ts:66 | an absent history is empty |
| `SearchHistory.SearchHistoryStore.Add` | src/utils/weather.ts:69-91 | splice, unshift and pop leave the stored list equal to `Added` of the old one; a valid store (at most 5, no duplicates) stays valid |
| `WeatherUtils.JsRem360` | src/utils/weather.ts:167 | JavaScript's `% 360` differs from the bearing by a whole number of turns and lies in [0, 360) for a non-negative bearing and in (-360, 0] for a negative one |
| `WeatherUtils.JsRem8` | src/utils/weather.ts:167 | JavaScript's `% 8` on the rounded index differs from it by a multiple of 8 and takes the sign of the dividend: in [0, 8) for a non-negative index, in (-8, 0] for a negative one |
| `WeatherUtils.JsRound` | src/utils/weather.ts:167 | `Math.round` gives the integer within half a unit of its argument, a half rounding up |
| `WeatherUtils.WindIndexAsWritten` | src/utils/weather.ts:167 | the index as computed is within -7..7, and non-negative for a non-negative bearing |
| `WeatherUtils.WindDirectionAsWritten` | src/utils/weather.ts:165-169 | for a non-negative bearing the label is one of the eight points |
| `WeatherUtils.NegativeBearingHasNoLabel` | src/utils/weather.ts:167-168 | -90 degrees gives index -2 and no label |
| `WeatherUtils.WindIndex` | src/utils/weather.ts:167 | the reduced index is in 0..7 and agrees with the code for every non-negative bearing |
| `WeatherUtils.WindDirection` | src/utils/weather.ts:165-169 | always one of the eight labels, and the code's label for every non-negative bearing |
| `WeatherUtils.WindSector` | src/utils/weather.ts:166-168 | within one turn, point i covers [45i - 22.5, 45i + 22.5): 0 is N, 90 is E, 180 is S, 270 is W |
| `WeatherUtils.WindWrapsToNorth` | src/utils/weather.ts:167 | from 337.5 up to 360 degrees the label is N |
| `WeatherUtils.WindPeriodic` | src/utils/weather.ts:167 | `deg` and `deg + 360` get the same label |
| `WeatherUtils.IsDaytime` | src/utils/weather.ts:185-191 | daytime exactly when sunrise < time < sunset: never at sunrise or sunset, never when sunset is not after sunrise |
| `WeatherUtils.ToFahrenheit` | src/utils/weather.ts:161-163 | converting the result back with (f - 32) * 5 / 9 gives the Celsius value |
| `WeatherUtils.FahrenheitFixedPoints` | src/utils/weather.ts:161-163 | 0 gives 32, 100 gives 212, -40 gives -40 |
| `WeatherUtils.FahrenheitIncreasing` | src/utils/weather.ts:161-163 | the conversion is strictly increasing |
| `HomePage.Toggled` | src/app/page.tsx:103 | the unit toggle always changes the unit |
| `HomePage.ToggleInvolution` | src/app/page.tsx:103 | toggling twice restores the unit |
| `HomePage.TrimStart` | src/app/page.tsx:56 | the start of `trim`: only white space is removed from the front, and what is left is empty or starts with a non-space |
| `HomePage.TrimEnd` | src/app/page.tsx:56 | the end of `trim`: only white space is removed from the back, and what is left is empty or ends with a non-space |
| `HomePage.BlankIsAllWhitespace` | src/app/page.tsx:56 | the guard `!searchCity.trim()` holds exactly when the input is empty or made only of the characters `trim` removes (tab, line feed, vertical tab, form feed, carriage return, space, no-break space, the Unicode space separators, line and paragraph separators, byte order mark) |
| `HomePage.Flipped` | src/app/page.tsx:87-92 | the named display option is negated and the other two are unchanged |
| `HomePage.Without` | src/app/page.tsx:74 | the filter removes exactly the entries equal to the city (case-sensitive) and nothing else |
| `HomePage.WithoutConcat` | src/app/page.tsx:74 | the filter keeps the order: it distributes over concatenation |
| `HomePage.UpdatedSearches` | src/app/page.tsx:72-75 | the searched city is first and nowhere else; the rest are the other recent searches in their old order, cut so that at most 5 entries remain |
| `HomePage.MoveToFront` | src/app/page.tsx:72-75 | an earlier search for the same city moves to the front instead of being repeated |
| `HomePage.Home.constructor` | src/app/page.tsx:23-45 | the first render has an empty input, no data, no error, all display options on, and the stored unit and recent searches |
| `HomePage.Home.HandleSearch` | src/app/page.tsx:55-85 | a blank search changes nothing; a successful one stores the four documents, clears the error and the input and updates the recent searches; a failed one clears the four documents, sets the error message (the generic one for a non-`Error`) and leaves the recent searches and the input as they were |
| `HomePage.Home.Apply` | src/app/page.tsx:58-84 | the state changes of a non-blank search, for the success and the failure path, leaving the unit and display options alone |
| `HomePage.Home.ToggleTempUnit` | src/app/page.tsx:102-103 | only the unit changes, to its toggle |
| `HomePage.Home.HandleDisplayOptionChange` | src/app/page.tsx:87-92 | only the display options change, by flipping the named one |
| `ForecastCard.KeepIfNewDate` | src/components/ForecastCard.tsx:43-49 | one `reduce` step leaves the kept list as it is when the entry's date is already there and appends the entry otherwise; the kept dates gain exactly the entry's date, and stay distinct |
| `ForecastCard.FirstPerDate` | src/components/ForecastCard.tsx:41-50 | the reduced list has distinct dates, has every date of the input, and starts with the input's first entry |
| `ForecastCard.ExtendPositions` | src/components/ForecastCard.tsx:44-48 | appending an entry with a new date gives it its own position, the first with that date |
| `ForecastCard.KeptPositions` | src/components/ForecastCard.tsx:42-50 | every kept entry is an input entry, at increasing positions, each the first position with its date |
| `ForecastCard.NextFiveDays` | src/components/ForecastCard.tsx:51 | `slice(1, 6)` has at most 5 entries, exactly 5 when there are 6 or more, and drops the first |
| `ForecastCard.ShownDays` | src/components/ForecastCard.tsx:41-51 | the days shown are at most 5, have distinct dates, and neither the first entry nor any entry of its date is among them |
| `ForecastCard.FindDate` | src/components/ForecastCard.tsx:45 | the search finds an entry with the date exactly when one exists |
| `ForecastCard.DailyForecasts` | src/components/ForecastCard.tsx:41-51 | the `reduce` loop followed by the slice returns exactly `NextFiveDays(FirstPerDate(list))`, the value `ShownDays` is about |

## Left out

- Network calls: `fetch` in the proxy and the axios calls of `getCoordinates`, `getWeather`, `getForecast` and `getWeatherAndDetails` (src/utils/weather.ts:93-159) are I/O; the proxy's upstream is the `fetch` parameter, a page search is its `SearchOutcome`.
- Concurrency: requests that interleave while `fetch` is pending are not modelled; each `Get` runs as one step. The table is read and written only before the upstream call, so each request's own update is still atomic.
- `console.error` logging of the caught error, and the content of framework objects built by `NextResponse` beyond status, body and headers.
- The URL parser behind `new URL(referer).origin` (WHATWG URL parsing and origin serialisation): it is the `urlOrigin` parameter.
- `SearchHistory.Lower`: lowers only the ASCII capitals `A`-`Z`, because the Unicode case mapping of `toLowerCase` is not modelled; as a consequence `Matches` treats "Évora" and "évora" as different cities, so `Added` keeps both entries where the code finds the old one and splices it out.
- `SearchHistory.LowerChar`: a non-ASCII capital such as `É` is returned unchanged where `toLowerCase` gives `é`, for the same reason; the matching consequence is the one stated for `SearchHistory.Lower`.
- The clock and locale functions (`Date.now`, `toLocaleDateString`, `toLocaleTimeString`, `formatTime`, `getLocalTime`): time is an integer parameter and the calendar date of a forecast entry is `dateKey`.
- Floating point: temperatures and bearings are exact reals, so IEEE rounding of `celsius * 9/5 + 32` and of `degrees % 360 / 45` is not captured.
- Browser storage: `localStorage` reads and writes, `JSON.parse`/`JSON.stringify`, and the `typeof window === 'undefined'` server-side early return; the stored history is the store's `items` and the page's stored unit and searches are constructor arguments. A stored unit other than `"C"` or `"F"` cannot be represented.
- The rate-limit entry as a shared mutable object: entries are values in the map, since no other reference to an entry ever leaves `checkRateLimit`.
- The payload of `response.json()` is kept as an opaque string; its shape belongs to the upstream provider.
- `getAirQuality`, `getExtendedWeather` and `getBackgroundTheme`, imported by src/app/page.tsx, are not part of this model.
- Presentation: the card, chart, settings, alerts and image components, layout and sitemap.
- `SearchHistory.AddedMatchesOnce`: "exactly one match afterwards" is proved only for a history without case-insensitive duplicates, because `findIndex` removes only the first match; every history this store writes satisfies that.
- The search-history cap is `MAX_SEARCH_HISTORY = 5` (src/utils/weather.ts:61), as the code uses; the unused `SEARCH_CONFIG.MAX_HISTORY_ITEMS = 10` of src/utils/constants.ts is not modelled.
- A `Referer` that is not a URL makes the origin check throw after the rate limiter has counted the request; the request then ends as the generic 500 of the `catch`. The model follows the code.

## Findings

| source | as written | input that shows it | evidently intended | confidence | as-written member | corrected member |
|---|---|---|---|---|---|---|
| src/utils/weather.ts:167-168 | `degrees % 360` keeps the sign of a negative bearing, so the index can be negative and `directions[index]` is `undefined` | a bearing of -90 degrees gives index -2 and no label | reduce the bearing into [0, 360) first, so -90 gives "W"; identical for every non-negative bearing | not executed; the provider normally reports bearings from 0 to 360 | `WeatherUtils.NegativeBearingHasNoLabel` | `WeatherUtils.WindDirection` |
