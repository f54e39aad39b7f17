# weather-sdk service core in Dafny

This project models the four classes of the weather SDK's `service`
package that hold its logic, and proves properties of the model:

- **`WeatherCacheManager`** (`weather_cache.dfy`, module `WeatherCache`)
  keeps the bounded, expiring cache of city weather. It has three structures
  side by side:
  - the map from city to JSON payload, each entry with its write time;
  - the queue of cities in order of first insertion;
  - the set of cities held.

  The behaviour is first stated on values: `CacheState`, with the functions
  `Lookup`, `Update` and `EvictOldest`. The class `WeatherCacheManager` then
  updates the three fields in place and is proved against those functions.
  `RemoveOldestEntry` is the polling `while` loop. The cache library's ticker
  is an integer clock reading `now`, in nanoseconds. An entry is expired once
  `now - writtenAt` reaches ten minutes.
- **`WeatherUpdater`** (`weather_updater.dfy`, module `Updater`) is the
  polling refresher. It has:
  - the interval check of its constructor;
  - the tick, which is skipped while another tick holds the lock; otherwise
    it snapshots the cached cities, fetches each one and writes successful
    results back, isolating per-city failures;
  - `stop`, and one firing of the fixed-rate schedule.

  The lock is the flag `tickInProgress`. The scheduler is the flag
  `stopped`. The network is a function `replies` that gives, for each city,
  what the transport produced for its request.
- **`WeatherSdkFactory`** (`weather_sdk_factory.dfy`, module `SdkRegistry`)
  is the registry of SDK instances, one per API key. It creates an instance
  on a miss and replaces it when the parameters change. Removal is explicit
  and throws when the key is absent. An instance is known by an identity
  drawn from a counter. `shutDown` records which instances were shut down.
- **`OpenWeatherApiClient`** (`open_weather_api_client.dfy`, module
  `ApiClient`) covers:
  - key and city validation;
  - the routing of 4xx and 5xx statuses to exception kinds;
  - the wrapping of every non-SDK failure as a network error.

  The HTTP exchange is a `Reply` value.

Shared pieces:
- `outcomes.dfy` holds `Option`, `Result` and `Outcome`. Java's `null` is
  `None`, and a thrown exception is `Failure`/`Fail`.
- `sdk_errors.dfy` holds the exception hierarchy as a kind tag plus message.
- `java_strings.dfy` holds Java's `trim()`. The blank test
  `s == null || s.trim().isEmpty()` is used by every validation.

All paths below are under `src/main/java/com/example/weathersdk/service/`
unless they name a test.

## Model

| member | source | states |
|---|---|---|
| `JavaStrings.TrimEmptyIffAllSpace` | src/main/java/com/example/weathersdk/service/WeatherCacheManager.java:155 | `trim()` leaves nothing exactly when every character is at most a space, so "blank" means exactly that |
| `WeatherCache.ValidateCityName` | src/main/java/com/example/weathersdk/service/WeatherCacheManager.java:154-158 | passes exactly the non-null, non-blank names; otherwise fails with InvalidCity |
| `WeatherCache.Lookup` | src/main/java/com/example/weathersdk/service/WeatherCacheManager.java:61-71 | InvalidCity for a null/blank name; succeeds iff the city is stored and its entry has not expired at `now`, with the stored payload; CityNotFound otherwise |
| `WeatherCache.Update` | src/main/java/com/example/weathersdk/service/WeatherCacheManager.java:82-103 | InvalidCity for a null/blank city, WeatherSdk for null/blank data with a valid city; succeeds iff both are non-blank |
| `WeatherCache.UpdateKeepsInvariant` | src/main/java/com/example/weathersdk/service/WeatherCacheManager.java:88-101 | every successful write keeps the queue duplicate-free, equal to the set and to the map's keys, free of blank names, and at most 10 long |
| `WeatherCache.InsertKeepsConsistent` | src/main/java/com/example/weathersdk/service/WeatherCacheManager.java:88-94 | the write before eviction keeps queue, set and map consistent and overshoots capacity by at most one |
| `WeatherCache.EvictOldestIsValid` | src/main/java/com/example/weathersdk/service/WeatherCacheManager.java:132-146 | evicting from the front of a consistent state restores capacity and keeps it consistent |
| `WeatherCache.EvictOldestBelowCapacity` | src/main/java/com/example/weathersdk/service/WeatherCacheManager.java:99-101 | a queue within capacity causes no eviction |
| `WeatherCache.RewriteKeepsOrder` | src/main/java/com/example/weathersdk/service/WeatherCacheManager.java:88-94 | re-writing a cached city replaces its payload and write time; queue, set and all other entries are unchanged |
| `WeatherCache.NewCityEvictsFront` | src/main/java/com/example/weathersdk/service/WeatherCacheManager.java:92-101 | a new city is appended at the back; if the queue was full, exactly the front city leaves queue, set and map (FIFO, not LRU) |
| `WeatherCache.ReadAfterWrite` | src/main/java/com/example/weathersdk/service/WeatherCacheManager.java:45-71 | a written city reads back its payload until ten minutes have passed, and from then on is CityNotFound with no other operation in between |
| `WeatherCache.WriteKeepsOthers` | src/main/java/com/example/weathersdk/service/WeatherCacheManager.java:82-103 | a write leaves every other city's read unchanged, except the front city that a new city pushes out of a full queue |
| `WeatherCache.RejectsBlankInput` | src/main/java/com/example/weathersdk/service/WeatherCacheManager.java:82-86 | a null/blank city or payload makes the write fail; a null/blank city fails both read and write with InvalidCity |
| `WeatherCache.WriteAllKeepsNewest` | src/main/java/com/example/weathersdk/service/WeatherCacheManager.java:88-101 | after writes of distinct new cities the queue is the newest ten of old queue plus new cities, and each surviving city holds its own payload |
| `WeatherCache.WriteOneNew` | src/main/java/com/example/weathersdk/service/WeatherCacheManager.java:92-101 | one write of a never-seen city moves the newest-ten window by one and changes no surviving entry |
| `WeatherCache.WritesKeepLastTen` | src/test/java/com/example/weathersdk/service/WeatherCacheManagerTest.java:39-48 | after any run of distinct cities written into an empty manager at one time, every city but the last ten is not found and the last ten read back their own payloads |
| `WeatherCache.TestWritesWellFormed` | src/test/java/com/example/weathersdk/service/WeatherCacheManagerTest.java:40-42 | the test's City1..City12 writes are non-blank and pairwise distinct and overflow by two, so `WritesKeepLastTen` says City1 and City2 are gone and City3..City12 remain |
| `WeatherCache.TestWritesEvictFirstTwo` | src/test/java/com/example/weathersdk/service/WeatherCacheManagerTest.java:39-48 | on the test's own data: after City1..City12 are written into an empty cache, City1 and City2 are not found and City3..City12 read back their payloads |
| `WeatherCache.WeatherCacheManager.constructor` | src/main/java/com/example/weathersdk/service/WeatherCacheManager.java:45-51 | a new manager is empty and satisfies the invariant |
| `WeatherCache.WeatherCacheManager.GetCachedData` | src/main/java/com/example/weathersdk/service/WeatherCacheManager.java:61-71 | returns exactly `Lookup` of the current state |
| `WeatherCache.WeatherCacheManager.UpdateCache` | src/main/java/com/example/weathersdk/service/WeatherCacheManager.java:82-103 | on success the fields become `Update`'s new state; on failure the error is returned and no field changes; the invariant is kept |
| `WeatherCache.WeatherCacheManager.GetCachedCities` | src/main/java/com/example/weathersdk/service/WeatherCacheManager.java:110-112 | every live city is listed and only stored cities are |
| `WeatherCache.WeatherCacheManager.ClearCache` | src/main/java/com/example/weathersdk/service/WeatherCacheManager.java:117-127 | map, queue and set are all empty afterwards |
| `WeatherCache.WeatherCacheManager.RemoveOldestEntry` | src/main/java/com/example/weathersdk/service/WeatherCacheManager.java:132-146 | the polling loop ends in `EvictOldest` of the old state: the front cities beyond ten leave queue, map and set |
| `ApiClient.ValidateApiKey` | src/main/java/com/example/weathersdk/service/OpenWeatherApiClient.java:32-35 | passes exactly the non-null, non-blank keys; otherwise InvalidApiKey |
| `ApiClient.NewClient` | src/main/java/com/example/weathersdk/service/OpenWeatherApiClient.java:32-40 | succeeds iff the key is non-blank, keeping the key and the default base URL; InvalidApiKey otherwise |
| `ApiClient.NewClientWithBaseUrl` | src/main/java/com/example/weathersdk/service/OpenWeatherApiClient.java:49-57 | the same, with the given base URL, which may be null: only the key decides whether construction succeeds |
| `ApiClient.HandleErrorResponse` | src/main/java/com/example/weathersdk/service/OpenWeatherApiClient.java:156-165 | InvalidApiKey iff 401, ApiKeyBlocked iff 403, CityNotFound iff 404, WeatherSdk for every other status; the message ends with the extracted error message |
| `ApiClient.MapNonSdk` | src/main/java/com/example/weathersdk/service/OpenWeatherApiClient.java:98-99 | a non-SDK failure becomes Network with "Network error: " and its message; SDK failures and values pass unchanged |
| `ApiClient.FetchWeather` | src/main/java/com/example/weathersdk/service/OpenWeatherApiClient.java:71-111 | a null/blank city fails with InvalidCity; every failure that leaves the call is an SDK exception |
| `ApiClient.BlankCityNeedsNoRequest` | src/main/java/com/example/weathersdk/service/OpenWeatherApiClient.java:71-74 | for a null/blank city the outcome does not depend on the network's reply |
| `ApiClient.StatusRouting` | src/main/java/com/example/weathersdk/service/OpenWeatherApiClient.java:85-95 | 401/403/404 give InvalidApiKey/ApiKeyBlocked/CityNotFound, other 4xx WeatherSdk, every 5xx UnexpectedApi, never Network |
| `ApiClient.SuccessfulResponse` | src/main/java/com/example/weathersdk/service/OpenWeatherApiClient.java:96-103 | outside 4xx/5xx the call succeeds iff the body is empty (null result) or converts (the JSON); a failed conversion is WeatherSdk, an undecodable body Network |
| `ApiClient.FailuresSurfaceAsSdkErrors` | src/main/java/com/example/weathersdk/service/OpenWeatherApiClient.java:98-110 | an SDK exception from the pipeline or from `block()` reaches the caller unchanged; any other becomes Network carrying its message |
| `Updater.PoolSize` | src/main/java/com/example/weathersdk/service/WeatherUpdater.java:81 | for n cities the pool has min(n, 5) workers, between 1 and 5 |
| `Updater.ValidateInterval` | src/main/java/com/example/weathersdk/service/WeatherUpdater.java:33 | passes exactly the positive intervals; otherwise WeatherSdk |
| `Updater.RefreshKeepsInvariant` | src/main/java/com/example/weathersdk/service/WeatherUpdater.java:84-96 | a tick's write-backs only rewrite entries, so the cache invariant survives |
| `Updater.RefreshWrite` | src/main/java/com/example/weathersdk/service/WeatherUpdater.java:87-88 | refreshing one more city whose fetch writes replaces only that city's entry |
| `Updater.RefreshSkip` | src/main/java/com/example/weathersdk/service/WeatherUpdater.java:90-91 | refreshing one more city whose fetch or write threw changes nothing |
| `Updater.TickStep` | src/main/java/com/example/weathersdk/service/WeatherUpdater.java:84-96 | one task's before and after states extend the refresh by that city |
| `Updater.ProgressStart` | src/main/java/com/example/weathersdk/service/WeatherUpdater.java:84 | before the loop nothing is done, attempted or failed |
| `Updater.ProgressStep` | src/main/java/com/example/weathersdk/service/WeatherUpdater.java:84-96 | one more city moves from remaining to done, is attempted once, and counts as failed exactly when its fetch or write threw |
| `Updater.ProgressEnd` | src/main/java/com/example/weathersdk/service/WeatherUpdater.java:84-98 | when nothing remains, every snapshot city was attempted exactly once and the failures are exactly the cities that threw |
| `Updater.TickReadBack` | src/main/java/com/example/weathersdk/service/WeatherUpdater.java:87-88 | after a tick, a refreshed city reads back the fetched payload until it expires and is CityNotFound from then on; every other city reads as before |
| `Updater.WeatherUpdater.constructor` | src/main/java/com/example/weathersdk/service/WeatherUpdater.java:32-39 | a validated updater starts running, with no tick in progress |
| `Updater.WeatherUpdater.Start` | src/main/java/com/example/weathersdk/service/WeatherUpdater.java:32-39 | succeeds iff the interval is positive, with a fresh running updater; otherwise WeatherSdk |
| `Updater.WeatherUpdater.Stop` | src/main/java/com/example/weathersdk/service/WeatherUpdater.java:44-60 | the scheduler is stopped afterwards, also when stopped already |
| `Updater.WeatherUpdater.SchedulerFires` | src/main/java/com/example/weathersdk/service/WeatherUpdater.java:37 | after `stop` no tick runs and the cache is unchanged; before it, each firing is one tick of `updateWeather` with that tick's whole effect (`TickEffect`): skipped exactly when a tick holds the lock, skipped and idle ticks change nothing, a tick that ran leaves the cache at `Refresh` of its snapshot |
| `Updater.WeatherUpdater.UpdateWeather` | src/main/java/com/example/weathersdk/service/WeatherUpdater.java:66-107 | skipped (nothing read or written) iff another tick holds the lock; an empty snapshot writes nothing; otherwise every snapshot city is fetched exactly once, the cache becomes `Refresh` of the old one, failures are exactly the cities that threw; the lock is as before on every path |
| `Updater.WeatherUpdater.RefreshAll` | src/main/java/com/example/weathersdk/service/WeatherUpdater.java:81-98 | the fan-out loop: each snapshot city is attempted once in some order, past every failure, and the cache ends as `Refresh` of the snapshot |
| `Updater.WeatherUpdater.RefreshCity` | src/main/java/com/example/weathersdk/service/WeatherUpdater.java:85-95 | one task: `ok` iff the fetch returned a non-blank payload; then only that city's entry is rewritten, otherwise the cache is unchanged |
| `SdkRegistry.ValidateApiKey` | src/main/java/com/example/weathersdk/service/WeatherSdkFactory.java:34-36 | passes exactly the non-null, non-blank keys; otherwise InvalidApiKey |
| `SdkRegistry.Remove` | src/main/java/com/example/weathersdk/service/WeatherSdkFactory.java:89-106 | succeeds iff the key is non-blank and registered; otherwise InvalidApiKey |
| `SdkRegistry.Get` | src/main/java/com/example/weathersdk/service/WeatherSdkFactory.java:33-54 | succeeds iff the key is non-blank; otherwise InvalidApiKey |
| `SdkRegistry.RejectsBlankKey` | src/main/java/com/example/weathersdk/service/WeatherSdkFactory.java:33-36 | both operations refuse a null/blank key with InvalidApiKey and produce no new registry |
| `SdkRegistry.NeedsUpdateDecidesReuse` | src/main/java/com/example/weathersdk/service/WeatherSdkFactory.java:64-67 | `needsUpdate` is true exactly when the stored instance's mode or polling interval differs from the requested one; for a registered key, `getInstance` returns the stored instance and changes nothing exactly when it is false |
| `SdkRegistry.GetReturnsExisting` | src/main/java/com/example/weathersdk/service/WeatherSdkFactory.java:39-47 | same key, mode and interval: the registered instance is returned and nothing changes |
| `SdkRegistry.GetReplaces` | src/main/java/com/example/weathersdk/service/WeatherSdkFactory.java:39-50 | a changed mode or interval shuts the old instance down and registers a distinct new one with the new parameters; other keys keep theirs |
| `SdkRegistry.GetCreates` | src/main/java/com/example/weathersdk/service/WeatherSdkFactory.java:49-50 | an unregistered key gets a new instance distinct from every registered one; other keys are unchanged |
| `SdkRegistry.RemoveDeletesOnlyKey` | src/main/java/com/example/weathersdk/service/WeatherSdkFactory.java:89-106 | removal deletes only that key and shuts its instance down; an absent key is refused with InvalidApiKey |
| `SdkRegistry.RemoveThenGetIsNew` | src/test/java/com/example/weathersdk/service/WeatherSdkFactoryTest.java:54-62 | after a removal, a later `getInstance` yields a new, running instance |
| `SdkRegistry.GetIdempotent` | src/test/java/com/example/weathersdk/service/WeatherSdkFactoryTest.java:13-20 | two calls with the same arguments return the same instance, the second changing nothing |
| `SdkRegistry.FreshIdIsNew` | src/main/java/com/example/weathersdk/service/WeatherSdkFactory.java:77-81 | the identity about to be handed out belongs to no registered and no shut-down instance |
| `SdkRegistry.WeatherSdkFactory.constructor` | src/main/java/com/example/weathersdk/service/WeatherSdkFactory.java:14 | the registry starts empty |
| `SdkRegistry.WeatherSdkFactory.GetInstance` | src/main/java/com/example/weathersdk/service/WeatherSdkFactory.java:33-54 | returns `Get`'s instance and takes `Get`'s new registry, or fails and changes nothing; the registry invariant is kept |
| `SdkRegistry.WeatherSdkFactory.CreateNewInstance` | src/main/java/com/example/weathersdk/service/WeatherSdkFactory.java:77-81 | a new instance with the next identity is put under the key |
| `SdkRegistry.WeatherSdkFactory.RemoveInstance` | src/main/java/com/example/weathersdk/service/WeatherSdkFactory.java:89-106 | takes `Remove`'s new registry, or fails and changes nothing; the registry invariant is kept |

## Left out

- Concurrency is not modelled: every operation runs alone. This covers:
  - the `ReentrantLock`s and `synchronized` blocks;
  - the concurrent queue and maps;
  - the per-tick thread pool and the `CountDownLatch`;
  - interleavings of ticks with other cache calls.

  A tick runs its city tasks one after another in an unspecified order.
  Its write-backs never touch the queue, so that order does not matter.
- The scheduler's timing is not modelled: the initial delay of 0, the period
  `interval`, and the 5-second `awaitTermination` with `shutdownNow`. The
  `InterruptedException` paths are left out too. `Stop` only moves the
  scheduler to its stopped state.
- Caffeine's own `maximumSize(10)` policy (WeatherCacheManager.java:47) is
  not modelled. The manager's explicit queue eviction is the only eviction.
  Expired entries stay in the map until they are overwritten or evicted,
  which matches lazy expiry.
- The ticker is an unbounded integer. Java's `long` nanosecond arithmetic,
  and its wrap-around, are not modelled.
- A whole tick reads the ticker once: all its write-backs carry the same
  `now`.
- The model counts a tick's tasks by its snapshot. The source sizes its
  `CountDownLatch` from the key set's `size()` (WeatherUpdater.java:82) but
  submits one task per city its iterator yields (:84). If the cache
  library's size counted expired entries that its iterator skips,
  `latch.await()` (:98) would never return and the tick lock would stay
  held. This depends on the library's view semantics, is not visible in
  the repository, and was not executed. The model's latch always reaches
  zero.
- WeatherCache.WeatherCacheManager.GetCachedCities: the contract only says
  that the result lies between the live cities and the stored ones. Whether
  the cache library's key view hides expired entries is the library's
  business. The modelled body returns every stored key.
- The HTTP transport and JSON are not modelled. This covers:
  - WebClient request building;
  - decoding of the response body;
  - `convertToRequiredFormat`'s Jackson serialisation;
  - `extractErrorMessage`'s parsing of the error body.

  These appear only through their outcome in `Reply`/`Payload`. The
  extracted message is an opaque string.
- A 4xx or 5xx response with an empty error body is not modelled: the
  routing assumes the body is read.
- The DTOs under `dto/` are declarative records with floating-point fields
  and no logic.
- `WeatherSdkImpl` is a stub in the source. It has no constructor taking
  key, mode and interval, no `getMode` and no `shutdown`. The model
  therefore:
  - treats an instance as its identity plus its creation parameters;
  - records `shutdown` as that identity joining `shutDown`;
  - lets instance creation always succeed.
- `WeatherUpdater.updateInterval` does not exist in the source. Only a test
  calls it.
- The legacy `factory/WeatherSdkFactory.java` is a placeholder and is not
  part of this model.
- Logging is not modelled.
- The exception classes are tags plus messages. Their causes are not kept.
- The factory's static map is the state of one `WeatherSdkFactory` object.
