# Daily quote and visit counters of the personal dashboard, in Dafny

This project models the only part of the dashboard page with real decision logic: the
**daily-quote policy** of `loadDailyQuote` (public/dashboard.js). On each page load it
reuses the quote cached in `localStorage` under today's date. Failing that, it asks the
quote service once and caches a valid answer under two keys. Failing that too, it shows the
fallback quote `FALLBACK_QUOTES[dayOfMonth % 10]` and writes nothing. Around it are the pure
helpers that it uses (`getDayBasedItem`, the response validation of `fetchQuoteFromAPI`, the
truncation rule of `displayQuote`), the two visit counters of `updateVisitorCount`, and the
three functions of the command-line module src/index.ts (`generateQuote`,
`getDashboardData`, `getUptime`).

Modules, one per concern:

- `Wrappers`: `Option`, standing for JavaScript's `null`/`undefined`.
- `Calendar`: `DayOfMonth`, the value of `new Date().getDate()` (1 to 31).
- `WebStorage`: the class `Storage`, i.e. `localStorage` as a `map<string, string>` field that
  `SetItem` updates in place.
- `JsNumber`: `parseInt` (section 19.2.5 of ECMA-262) and `String(n)` for integral numbers
  and NaN, as the counters are stored as strings and read back with `parseInt`.
- `Dashboard`: public/dashboard.js. The imperative entry points `LoadDailyQuote` and
  `UpdateVisitorCount` change a `Storage` step by step, as the source does. Each is proved
  equal to a function on the store's contents (`DailyQuote`, `CountVisit`), and the
  properties are lemmas about those functions.
- `Index`: src/index.ts.

The outside world is passed in as values: today's date string (`toDateString()`), the day
of the month, the outcome of the single request (`Response`: a network error, or a
response with its `ok` flag and its parsed body), the two clock reads of `getUptime`, the
formatted timestamp, and the JSON functions (`Json`: `stringify` and `parse`). The
round-trip lemmas assume `Faithful(json)`: a serialised quote is never empty and parses back
to the same quote. `loadDailyQuote` returns the quote it hands to `displayQuote`, or `None`
when it displays nothing.

## Behaviour worth knowing

- A cached payload under today's date that parses to a falsy value (`null`, `0`, `false`,
  `""`) takes the cache path at public/dashboard.js:236-241. `displayQuote` then skips it
  (line 268), so nothing is displayed and no request is made
  (`NothingShownOnlyForFalsyCache`).
- A cached value that parses but whose `text` is missing or `null` makes `displayQuote` throw at line 270. The
  throw happens inside the `try` of lines 237-244, so the load falls through to the request
  path just like a payload that does not parse (`NoText`).
- The service's answer is rejected when EITHER `text` or `author` is missing or empty
  (line 171). Both must be truthy.
- `localStorage.getItem` is called at lines 232-233, outside any `try`. If storage is
  unreadable, `loadDailyQuote` rejects instead of treating it as a cache miss. This case is
  not modelled (see below).
- `getUptime` reads the clock twice (src/index.ts:28), and the left operand is read first.
  The result is therefore 86400000 minus the milliseconds between the two reads: at most one
  day, and exactly one day only when both reads agree.

## Model

| member | source | states |
|---|---|---|
| `JsNumber.TrimStart` | public/dashboard.js:219 | what `parseInt` keeps after skipping white space is a suffix of its input; every character dropped is white space and the first one kept is not |
| `JsNumber.ParseInt` | public/dashboard.js:219 | `parseInt` of a string that is all white space, or whose first other character is neither a sign nor a decimal digit, is NaN; a negative result needs a leading minus sign |
| `JsNumber.Increment` | public/dashboard.js:219 | `+ 1` adds one to a number and leaves NaN NaN |
| `JsNumber.DigitPrefix` | public/dashboard.js:219 | the digits `parseInt` reads are the longest prefix made only of digits of the radix: the next character, if any, is not one |
| `JsNumber.Decimal` | public/dashboard.js:220 | `String(n)` of a non-negative integer is a non-empty run of decimal digits without a leading zero |
| `JsNumber.NumberToString` | public/dashboard.js:220 | the stored string is "NaN" exactly for NaN; otherwise decimal digits, led by a minus sign exactly when the number is negative |
| `JsNumber.DecimalValue` | public/dashboard.js:219-220 | the decimal digits written for `n` have the value `n` |
| `JsNumber.ParseMagnitudeDecimal` | public/dashboard.js:219-220 | the digits of `n`, read after the sign, give `n` (they never look like a `0x` prefix) |
| `JsNumber.ParseIntNaN` | public/dashboard.js:219-220 | a counter stored as "NaN" reads back as NaN, so a broken counter stays NaN |
| `JsNumber.ParseIntOfInt` | public/dashboard.js:219-220 | an integer stored with `String` (with its minus sign) reads back with `parseInt` as the same integer |
| `JsNumber.ParseIntOfNumberToString` | public/dashboard.js:218-226 | `parseInt(String(n)) == n` for every stored count, NaN included |
| `Dashboard.GetDayBasedItem` | public/dashboard.js:124-127 | defined exactly for a non-empty table; the entry is the one at index `day % length` (always in bounds); `undefined` for an empty table |
| `Dashboard.DayBasedItemPeriodic` | public/dashboard.js:124-127 | days equal modulo the table length, and so the same day, pick the same entry |
| `Dashboard.EveryItemOnSomeDay` | public/dashboard.js:124-127 | every entry of a table of at most 31 entries is picked on some day of the month |
| `Dashboard.FetchQuoteFromApi` | public/dashboard.js:159-186 | a quote results iff the response arrived, is ok, its body parsed, and both `text` and `author` are non-empty; it copies `text`, `author`, `id` and sets `tags` to the body's tags or `[]` |
| `Dashboard.FetchAcceptsEveryWellFormedQuote` | public/dashboard.js:171-178 | every quote with non-empty text and author and with tags comes back unchanged from the response carrying it, so validation rejects nothing else |
| `Dashboard.DisplayText` | public/dashboard.js:270 | text of at most 200 characters is shown unchanged; longer text is shown as its first 200 characters followed by `...`; at most 203 characters are shown |
| `Dashboard.DisplayQuote` | public/dashboard.js:266-278 | a quote is shown with its truncated text and its author; a falsy quote shows nothing |
| `Dashboard.ReadCache` | public/dashboard.js:231-245 | the cache is used iff the stored date equals today and the stored payload is non-empty and parses to a quote or to a falsy value; a parsed quote is the one shown, a falsy value shows nothing |
| `Dashboard.CachedQuoteIsShown` | public/dashboard.js:236-241 | a quote cached under today's date is shown as it is, whatever the service would answer, and the store is unchanged |
| `Dashboard.DailyQuote` | public/dashboard.js:230-264 | three exclusive paths: the cache path writes nothing and shows the cached quote; the fetch path shows the fetched quote and writes exactly the cache key and the date key; the fallback path writes nothing and shows `FALLBACK_QUOTES[day % 10]`; no other key ever changes |
| `WebStorage.Storage.GetItem` | public/dashboard.js:232-233 | `getItem` returns the stored string, and `null` (None) exactly when the key was never set |
| `WebStorage.Storage.SetItem` | public/dashboard.js:255-256 | `setItem` overwrites one key and leaves every other key unchanged |
| `Dashboard.LoadDailyQuote` | public/dashboard.js:230-264 | the store after the call and the quote displayed are those of `DailyQuote` on the store before the call |
| `Dashboard.UnusableCacheFallsThrough` | public/dashboard.js:236-262 | a payload under today's date that does not parse, or whose `text` is missing or `null`, leads to the request; when that fails the payload is left in place, not cleared |
| `Dashboard.NothingShownOnlyForFalsyCache` | public/dashboard.js:236-268 | nothing is displayed exactly when the cache path is taken on a payload that parses to a falsy value |
| `Dashboard.ReloadAfterFetchHitsCache` | public/dashboard.js:236-257 | after a successful request on a day, the next load on that day takes the cache path, whatever the service would answer, writes nothing and shows the same quote |
| `Dashboard.SameDaySameQuote` | public/dashboard.js:230-264 | two loads on the same day show the same quote unless the second one fetches successfully |
| `Dashboard.FirstLoadScenario` | public/dashboard.js:253-257 | empty store and the answer `{text: "A", author: "B"}`: "A" by "B" is shown and cached with empty tags under today's date |
| `Dashboard.NetworkErrorScenario` | public/dashboard.js:258-262 | empty store, a network error, the 15th: fallback quote 5 is shown and the store stays empty |
| `Dashboard.FallbackQuotesWellFormed` | public/dashboard.js:32-73 | the fallback table holds ten quotes; each has non-empty text and author, is short enough to be shown untruncated, and has no `id` or `tags` |
| `Dashboard.OrZero` | public/dashboard.js:218 | a missing or empty stored count becomes "0"; any other stored string is passed on unchanged |
| `Dashboard.Bump` | public/dashboard.js:218-220 | reading a counter, adding one and storing it back makes the counter read one more (NaN stays NaN) and changes no other key |
| `Dashboard.ReadCounter` | public/dashboard.js:218-219 | a counter that is missing or stored as an empty string reads as 0; any other stored string is read with `parseInt` |
| `Dashboard.CountVisit` | public/dashboard.js:216-228 | after `updateVisitorCount` both `visits` and `pageLoads` read one more than before (a missing count being 0, NaN staying NaN), and every other key is unchanged |
| `Dashboard.UpdateVisitorCount` | public/dashboard.js:216-228 | the store afterwards is `CountVisit` of the store before, and the two returned (displayed) counts are the old counts plus one |
| `Index.GetUptime` | src/index.ts:26-29 | uptime plus the time between the two clock reads is one day: at most one day for a clock that does not go back, exactly one day iff the reads agree, positive while they are less than a day apart |
| `Index.GetDashboardData` | src/index.ts:31-38 | `version` is "2.0.0", `status` is "🟢 Online", and `timestamp` and `uptime` come from the clock helpers |
| `Index.GenerateQuote` | src/index.ts:40-51 | the quote of the day is the table entry at `day % 5`, so always one of the five, and is longer than 10 characters |
| `Index.GenerateQuotePeriodic` | src/index.ts:49-50 | days equal modulo 5, and so the same day, give the same quote |
| `Index.EveryQuoteOnSomeDay` | src/index.ts:40-51 | each of the five quotes is the quote of some day of the month |

## Left out

- DOM rendering: `safeSetContent`, `safeSetAttribute`, the HTML markup in `displayQuote`, and the "Fetching inspirational quote..." placeholder. Only the displayed value is modelled. The quote element is taken to exist.
- `fetch`, `response.json()` and `async`/`await`: the request's outcome is a parameter. Overlapping invocations and the interleaving of their writes are not modelled.
- `JSON.parse` and `JSON.stringify`: they are parameters (`Json`). Their round trip is assumed as `Faithful` where a lemma needs it.
- `Date`, `toDateString`, `toLocaleString`, `toLocaleTimeString`, `getCurrentTime`, `formatNumber`: locale and clock libraries. Their results are parameters.
- `localStorage.getItem`/`setItem` throwing (storage unavailable, quota exceeded): not modelled.
- `fetchGitHubData`, `loadGitHubStats`: network calls plus fixed fallback strings.
- `getRandomItem`, `loadNewFact`, `TECH_FACTS`, the simulated uptime in `initDashboard`: they depend on `Math.random`.
- `setInterval`, `updateClock`, `updateSessionTime`, `initDashboard`, `main` and all logging: scheduling and output glue.
- `JsNumber.ParseIntOfNumberToString`: counts are exact integers. Floating-point rounding above 2^53, the exponent form of `String(n)` from 1e21 on, and negative zero are not modelled.
- `Dashboard.DisplayText`: lengths are counted in Unicode scalar values. JavaScript counts UTF-16 code units, so the cut falls elsewhere in text with characters outside the Basic Multilingual Plane.
- `Dashboard.FetchQuoteFromApi`: a truthy `author` that is not a string (say a number) is accepted by the source but cannot be represented here. The same goes for an `id` that is not an integer (a string, a fraction, an object) and a truthy `tags` that is not an array of strings: the source copies both unchanged (lines 176-177), but the model has only `Option<int>` and `Option<seq<string>>` for them. A non-string `text` is `None`, as the source also rejects it (its `substring` call throws).
- `Dashboard.ReadCache`: a cached object whose `text` is not a string, or whose `author` is missing, is not representable. The source would display it with `undefined` or a number in place.
