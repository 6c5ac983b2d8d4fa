# super-api: client cache, search history and the retrying local handler, in Dafny

This project models two pieces of the super-api repository and proves properties of them.

- **The web front end's store** (`web/src/AppContext.jsx`), in module `AppCache`. It holds a keyed cache of API responses. Each entry is stamped with its write time. On load, the cache drops stale entries and rejects a foreign version. It is capped at 50 entries, keeping the newest. A read expires an entry lazily after 30 minutes. The store also keeps the recent searches: deduplicated, most recent last, at most 10. The provider's two state cells are the fields `cache` and `history` of class `AppStore`. Its methods call pure functions (`Put`, `Lookup`, `AfterLookup`, `AddRecent`, `LastN`) and two loop methods (`LoadCache`, `CapSize`).
- **The local API handler** (`api/super-info-local.js`), in module `SuperInfoLocal`. `fetchWithRetry` becomes the method `FetchWithRetry`. Each upstream is a function from attempt index to outcome, so no network call appears. The handler `SuperInfo` rejects a missing country with 400. It asks the five upstreams one after another, reads the country record defensively (`Extract`), and assembles the answer (`Assemble`, `RateFor`, `WordOfTheDayOf`, `ImageUrl`).

`Date.now()` is the parameter `now`. What `localStorage` held is the parameter `saved`. `Math.random()`'s word choice is the parameter `pick`. The pause between attempts is recorded in `waits`, not slept.

Behaviour of the code that the model keeps:
- The retry pause is the same `delay` after every failed attempt but the last.
- The five upstream calls are made one after another, each awaited before the next.
- A country query with no matching record ends in 500: reading a field of the missing first record throws, and an upstream 404 is thrown after its retries.
- The only input check is that `country` is present and non-empty.
- The client cache's maximum age is 30 minutes. Loading keeps an entry only while its age is strictly below that. A read expires it only once its age is strictly above.

The size cap is modelled as "drop an entry with the smallest timestamp until 50 remain". This keeps the same set of entries as the source's sort newest-first and `slice(0, 50)`, up to which of several equal timestamps is kept.

## Model

| member | source | states |
|---|---|---|
| AppCache.LoadCache | web/src/AppContext.jsx:23-45 | Nothing stored, unreadable text or a version other than "1.0" gives the empty cache. Otherwise a key is kept exactly when it was stored and its age is strictly below 30 minutes, and its entry is kept unchanged. |
| AppCache.OldestKey | web/src/AppContext.jsx:63 | Returns a key of the cache whose timestamp is no larger than any other entry's. |
| AppCache.CapSize | web/src/AppContext.jsx:60-69 | A cache of at most 50 entries is returned unchanged. A larger one shrinks to exactly 50 of its own entries, unchanged. Every dropped entry's timestamp is at most every kept entry's. |
| AppCache.Put | web/src/AppContext.jsx:80-88 | After a write, `key` holds `{data, now}`, the key set grows by `key` only, and every other entry is unchanged. |
| AppCache.Lookup | web/src/AppContext.jsx:90-102 | A read returns data exactly when the key is present and its age is not above the maximum, and then it returns the stored data. |
| AppCache.AfterLookup | web/src/AppContext.jsx:93-99 | A read of an expired entry removes that key only. Any other read leaves the cache unchanged. |
| AppCache.ReadAfterWrite | web/src/AppContext.jsx:80-102 | A read at most 30 minutes after a write returns the written data and removes nothing. |
| AppCache.ReadAfterExpiry | web/src/AppContext.jsx:90-99 | A read more than 30 minutes after a write returns nothing, and the cache becomes the pre-write cache without that key. |
| AppCache.WriteIsolated | web/src/AppContext.jsx:80-88 | A write to one key does not change the result of reading any other key. |
| AppCache.AgeBoundary | web/src/AppContext.jsx:93 | An entry exactly 30 minutes old is dropped by loading (line 34, strict `<`) but still returned by a read. An entry that survives loading is returned by a read at the same time and is not removed. |
| AppCache.LastN | web/src/AppContext.jsx:54 | `slice(-n)` for a positive `n` (the source's `slice(-10)`): the result is a suffix of the list, of length min(length, n). |
| AppCache.Without | web/src/AppContext.jsx:106 | The filter removes every occurrence of the term and keeps every other element's number of occurrences. It shortens a list that contained the term. |
| AppCache.WithoutConcat | web/src/AppContext.jsx:106 | Filtering distributes over concatenation, so the survivors keep their relative order. |
| AppCache.WithoutAbsent | web/src/AppContext.jsx:106 | Filtering out a term that does not occur leaves the list unchanged. |
| AppCache.AddRecent | web/src/AppContext.jsx:104-109 | The new history is non-empty and has at most 10 entries. It ends with the searched term, contains it exactly once, and has no other copy of it before the end. |
| AppCache.AddRecentNew | web/src/AppContext.jsx:104-109 | A new term on a history with fewer than 10 entries is appended and nothing is dropped. |
| AppCache.AddRecentFull | web/src/AppContext.jsx:104-109 | A new term on a full history of 10 drops exactly the oldest entry. |
| AppCache.AddRecentExisting | web/src/AppContext.jsx:104-109 | A term already present, in a history of at most 10, is moved to the end. The others keep their order and nothing else is dropped. |
| AppCache.AddRecentIdempotent | web/src/AppContext.jsx:104-109 | Adding the same term twice gives the same history as adding it once. |
| AppCache.AppStore.constructor | web/src/AppContext.jsx:17-45 | The history starts as stored, or empty. The cache starts as LoadCache gives it. |
| AppCache.AppStore.EnforceSizeCap | web/src/AppContext.jsx:58-69 | The cache is replaced as CapSize does. The history is unchanged. |
| AppCache.AppStore.Update | web/src/AppContext.jsx:80-88 | The cache becomes Put of the old cache. The history is unchanged. |
| AppCache.AppStore.Get | web/src/AppContext.jsx:90-102 | Returns Lookup of the old cache. The cache becomes AfterLookup of it, so only an expired entry for that key is deleted. The history is unchanged. |
| AppCache.AppStore.Clear | web/src/AppContext.jsx:111-114 | The cache becomes empty. The history is unchanged. |
| AppCache.AppStore.AddToSearchHistory | web/src/AppContext.jsx:104-109 | The history becomes AddRecent of the old history. The cache is unchanged. The persisted history then equals the whole history. |
| AppCache.AppStore.PersistedHistory | web/src/AppContext.jsx:52-55 | What is written to storage is the last min(length, 10) searches of the history. |
| SuperInfoLocal.SettleFirstSuccess | api/super-info-local.js:10-20 | When the first success among the allowed attempts is attempt j, the reference result is j's response. |
| SuperInfoLocal.SettleAllFail | api/super-info-local.js:10-20 | When every allowed attempt fails, the reference result is the last attempt's error. |
| SuperInfoLocal.FetchWithRetry | api/super-info-local.js:10-20 | The result is the reference `Settle`: the first success within `retries` attempts, else the last attempt's error, else `undefined` for `retries <= 0`. At most `retries` attempts are made. Every attempt before the last one made failed. A success stops the loop and its response is returned. All `retries` failing throws the final attempt's error. The result is a response exactly when some attempt within the bound succeeds. `retries <= 0` makes no attempt and yields `undefined`. There is one pause of exactly `delay` after each attempt except the last. |
| SuperInfoLocal.FetchWithDefaults | api/super-info-local.js:10-20 | The result is `Settle` with three attempts. A call with the default arguments makes one to three attempts and never yields `undefined`. A response is the last attempt's success, and a thrown error is the third attempt's failure. An upstream that succeeds at once is asked once. |
| SuperInfoLocal.At | api/super-info-local.js:32-36 | `s?.[i]` is defined exactly when the list exists and is long enough, and then it is that element. |
| SuperInfoLocal.OrString | api/super-info-local.js:32-35 | The string fallback gives the string when it is present and non-empty, and the fallback otherwise. It is never empty when the fallback is not. |
| SuperInfoLocal.OrZero | api/super-info-local.js:33-34 | The number fallback gives a present number, and 0 for a missing one. |
| SuperInfoLocal.LatLng | api/super-info-local.js:33-34 | `capitalInfo?.latlng` is defined exactly when both levels are present, and then it is the coordinate list. |
| SuperInfoLocal.FlagPng | api/super-info-local.js:35 | `flags?.png` is defined exactly when both levels are present, and then it is the PNG address. |
| SuperInfoLocal.Extract | api/super-info-local.js:32-36 | Capital and currency code are never empty. A present non-empty first capital, PNG flag and first currency key are taken as they are, and a missing or empty one gives "N/A", "" and "USD". A present first and second coordinate are the latitude and longitude, and a missing one gives 0. |
| SuperInfoLocal.ExtractBare | api/super-info-local.js:32-36 | A record with every optional field missing gets all the fallbacks. |
| SuperInfoLocal.ExtractFull | api/super-info-local.js:32-36 | A record with every field present and non-empty is read as it stands. |
| SuperInfoLocal.RateFor | api/super-info-local.js:52 | The rate is the table's rate for the code when it is present and non-zero, and 1 otherwise. It is never 0. |
| SuperInfoLocal.FirstDefinition | api/super-info-local.js:64-65 | `meanings[0]?.definitions[0]` exists exactly when both lists are non-empty, and then it is their first element. |
| SuperInfoLocal.WordOfTheDayOf | api/super-info-local.js:62-66 | The word is the entry's word. The meaning is the first definition's text, or absent. The example is never empty. A present non-empty example of the first definition is the example. It is "No example available" exactly when the first definition is missing or has no non-empty example (or its example is that very text). |
| SuperInfoLocal.ImageUrl | api/super-info-local.js:44 | The image address is `https://picsum.photos/seed/`, then the query term, then `/600/400`, and nothing else. |
| SuperInfoLocal.ImageUrlInjective | api/super-info-local.js:44 | Different query terms give different image addresses. |
| SuperInfoLocal.Status | api/super-info-local.js:22-78 | A reply's status is 400 for a missing country, 500 for a failure, and 200 for an answer, each exactly. |
| SuperInfoLocal.Assemble | api/super-info-local.js:54-72 | The answer carries the record's name and population, the extracted capital and flag, the weather and fact as given, the query term's image address, the word entry's word of the day, and a conversion from "USD" to the extracted currency code at RateFor's rate. |
| SuperInfoLocal.AssembleTotal | api/super-info-local.js:54-72 | Whatever the upstream data, the answer has a non-empty capital and a non-zero rate. The conversion is from "USD" to the record's (never empty) currency code. The example is non-empty. The image address is the query term's. |
| SuperInfoLocal.SuperInfo | api/super-info-local.js:22-78 | The status is 400 exactly when `country` is missing or empty, and then no upstream is asked. Otherwise each upstream's result is `Settle` with three attempts, taken in order: country, weather at the extracted coordinates, fact, dictionary for the picked word, rates. A country lookup that throws is a 500 with that error and only one upstream asked; an empty record list is a 500 too. After a record is found, the first later upstream that throws ends the request with a 500 carrying its error, with exactly the upstreams up to it asked. The reply is an answer exactly when the other four resolve, the word list is non-empty and the rate table exists, and the answer is Assemble of the first record, those four responses, the first word entry and the rate table. An answer asked all five; stopping earlier is a 500. |

## Left out

- The dark-mode flag and its persistence (web/src/AppContext.jsx:12-15, 47-50): a UI preference with no logic to state.
- `localStorage`, `JSON.parse` and `JSON.stringify`: the stored cache is the input `Saved` (nothing, unreadable, or a parsed `{version, data}`). The stored history is an optional list.
- A stored history that does not parse (web/src/AppContext.jsx:19) makes the provider throw; this is not modelled.
- Writing the cache back to storage (web/src/AppContext.jsx:71-74): it is I/O, and it writes the pre-trim map only because the effect re-runs.
- React's effect scheduling: the size cap is the separate method `EnforceSizeCap`, which the provider runs after every cache change. `getCachedData` reading `cache` from the render while the removal uses the latest state is modelled as one state.
- Which of several entries with equal timestamps the size cap keeps: the sort's tie order is not modelled.
- Stored entries whose timestamp is not a number: timestamps are integers.
- Express setup, CORS, `app.listen`, console output, and the text of the catch-all 500 body (api/super-info-local.js:74-77). A 500 is `ServerError` with its cause.
- `axios.get`, `setTimeout` and `Math.random` (api/super-info-local.js:13, 17, 47): attempts are the upstream functions, pauses are recorded in `waits`, and the drawn index is `pick`.
- Request URLs: each upstream function takes what its URL is built from (query term, coordinates, word). Printing numbers into the URL is not modelled.
- NaN latitudes, longitudes or rates; JavaScript numbers are `real`; a fractional `retries` is not modelled.
- SuperInfo: does not model a missing `name`, `meanings` or `definitions` field throwing a TypeError. The model assumes those fields are present; missing records and a missing rate table are modelled.
- The weather upstream's result is taken to be its `current_weather` value.
- A repeated `country` query parameter (an array in Express) is not modelled.
- `api/index.js`, `api/super-info.js`, `web/src/App.jsx`, `web/src/SuperInfoCard.jsx` and `web/src/SkeletonCard.jsx` are not part of this model: routing, unguarded straight-line calls and rendering.
