/** `WeatherUpdater`: the polling refresher.

    One tick takes the snapshot of cached cities, fetches every city of it
    and writes each successful result back into the cache; a failure for one
    city is caught and does not stop the others. The tick lock becomes the
    flag `tickInProgress` (a tick finding it set is the tick that finds the
    lock held), the worker pool becomes a sequential loop over the snapshot
    in an unspecified order, and the scheduler becomes the flag `stopped`
    together with `SchedulerFires`, one firing of the fixed-rate schedule.

    The network is the function `replies`: what the transport would produce
    for a request about each city; the fetch itself is the client's
    `FetchWeather`. The whole tick reads the ticker once, at `now`. */
module Updater {
  import opened Outcomes
  import opened SdkErrors
  import opened JavaStrings
  import opened WeatherCache
  import opened ApiClient

  /** The largest worker pool a tick uses. */
  const MAX_WORKERS: nat := 5

  /** `Math.min(cities.size(), 5)` for a non-empty snapshot. */
  function PoolSize(n: nat): (k: nat)
    requires n > 0
    ensures 1 <= k <= MAX_WORKERS && k <= n
    ensures k == n || k == MAX_WORKERS
  {
    if n < MAX_WORKERS then n else MAX_WORKERS
  }

  /** The message of the exception for an interval that is not positive. */
  const INVALID_INTERVAL_MESSAGE: string := "Polling interval must be greater than 0 seconds."

  /** The constructor's interval check. */
  function ValidateInterval(interval: int): (r: Outcome<Failure>)
    ensures r.Pass? <==> interval > 0
    ensures r.Fail? ==> r.error.Is(WeatherSdk)
  {
    if interval <= 0 then Fail(SdkError(WeatherSdk, INVALID_INTERVAL_MESSAGE)) else Pass
  }

  /** What a call of `updateWeather` did: skipped because another tick
      held the lock, found no city, or ran over `snapshot` with `workers`
      workers, fetching the cities in the order `attempted`; `failed` are
      the cities whose fetch or write threw. */
  datatype TickReport =
    | Skipped
    | Idle
    | Ran(snapshot: set<string>, workers: nat, attempted: seq<string>, failed: set<string>)

  /** The fetch of each city when the network answers as `replies` says. */
  function Fetcher(client: Client, replies: string -> Reply): string -> Result<Option<string>, Failure> {
    city => FetchWeather(client, Some(city), replies(city))
  }

  /** A fetch whose result `updateCache` accepts: it returned a payload
      that is neither null nor blank. */
  predicate Writes(f: Result<Option<string>, Failure>) {
    f.Success? && !IsNullOrBlank(f.value)
  }

  /** The cities of `done` whose fetch or write threw. */
  ghost function FailedAmong(done: set<string>, fetch: string -> Result<Option<string>, Failure>): set<string> {
    set c | c in done && !Writes(fetch(c))
  }

  /** The bookkeeping of a tick's loop: the snapshot `cities` is split into
      the cities `done` and those `remaining`; the cities done were
      attempted once each, and `failed` are those among them that threw. */
  ghost predicate Progress(cities: set<string>, remaining: set<string>, done: set<string>, attempted: seq<string>,
                           failed: set<string>, fetch: string -> Result<Option<string>, Failure>)
  {
    && remaining <= cities
    && (forall c :: c in done ==> c in cities && c !in remaining)
    && (forall c :: c in cities ==> c in done || c in remaining)
    && NoDuplicates(attempted)
    && (forall c :: c in attempted <==> c in done)
    && failed == FailedAmong(done, fetch)
  }

  lemma ProgressStart(cities: set<string>, fetch: string -> Result<Option<string>, Failure>)
    ensures Progress(cities, cities, {}, [], {}, fetch)
  {
    assert FailedAmong({}, fetch) == {};
  }

  lemma ProgressStep(cities: set<string>, remaining: set<string>, done: set<string>, attempted: seq<string>,
                     failed: set<string>, fetch: string -> Result<Option<string>, Failure>, city: string, ok: bool)
    requires Progress(cities, remaining, done, attempted, failed, fetch)
    requires city in remaining && ok == Writes(fetch(city))
    ensures Progress(cities, remaining - {city}, done + {city}, attempted + [city],
                     if ok then failed else failed + {city}, fetch)
  {
    assert FailedAmong(done + {city}, fetch) == FailedAmong(done, fetch) + (if ok then {} else {city});
    assert forall c :: c in attempted + [city] <==> c in attempted || c == city;
  }

  lemma ProgressEnd(cities: set<string>, remaining: set<string>, done: set<string>, attempted: seq<string>,
                    failed: set<string>, fetch: string -> Result<Option<string>, Failure>)
    requires Progress(cities, remaining, done, attempted, failed, fetch) && remaining == {}
    ensures done == cities
    ensures NoDuplicates(attempted) && (forall c :: c in attempted <==> c in cities)
    ensures failed == FailedAmong(cities, fetch)
  {
    assert done == cities;
  }

  /** The cache after the cities of `done` have been refreshed at `now`:
      each of them whose fetch writes holds the fetched payload, every other
      entry and the queue and the set are as they were. */
  ghost function Refresh(s: CacheState, done: set<string>, fetch: string -> Result<Option<string>, Failure>, now: int): CacheState {
    CacheState(
      map c | c in s.entries ::
        if c in done && Writes(fetch(c)) then Entry(fetch(c).value.value, now)
        else s.entries[c],
      s.order,
      s.members)
  }

  /** A refresh only rewrites entries, so the cache invariant survives it. */
  lemma RefreshKeepsInvariant(s: CacheState, done: set<string>, fetch: string -> Result<Option<string>, Failure>, now: int)
    requires Invariant(s)
    ensures Invariant(Refresh(s, done, fetch, now))
  {
    assert Refresh(s, done, fetch, now).entries.Keys == s.entries.Keys;
  }

  /** Refreshing one more city that writes rewrites only that city's entry. */
  lemma RefreshWrite(s: CacheState, done: set<string>, c: string, fetch: string -> Result<Option<string>, Failure>, now: int)
    requires c in s.entries && Writes(fetch(c))
    ensures var t := Refresh(s, done, fetch, now);
      Refresh(s, done + {c}, fetch, now) == CacheState(t.entries[c := Entry(fetch(c).value.value, now)], t.order, t.members)
  {
    var t := Refresh(s, done, fetch, now);
    assert t.entries[c := Entry(fetch(c).value.value, now)] == Refresh(s, done + {c}, fetch, now).entries;
  }

  /** Refreshing one more city that does not write changes nothing. */
  lemma RefreshSkip(s: CacheState, done: set<string>, c: string, fetch: string -> Result<Option<string>, Failure>, now: int)
    requires !Writes(fetch(c))
    ensures Refresh(s, done, fetch, now) == Refresh(s, done + {c}, fetch, now)
  {
    assert Refresh(s, done, fetch, now).entries == Refresh(s, done + {c}, fetch, now).entries;
  }

  /** The loop step of a tick, on the states before and after one city's
      task: the refresh then covers that city too. */
  lemma TickStep(s0: CacheState, done: set<string>, c: string, fetch: string -> Result<Option<string>, Failure>, now: int,
                 before: CacheState, after: CacheState, ok: bool)
    requires before == Refresh(s0, done, fetch, now) && c in s0.entries && ok == Writes(fetch(c))
    requires ok ==> after == CacheState(before.entries[c := Entry(fetch(c).value.value, now)], before.order, before.members)
    requires !ok ==> after == before
    ensures after == Refresh(s0, done + {c}, fetch, now)
  {
    if ok {
      RefreshWrite(s0, done, c, fetch, now);
    } else {
      RefreshSkip(s0, done, c, fetch, now);
    }
  }

  /** What a tick reported as `report` did to the cache `before`, given
      the fetches `fetch` at time `now`: nothing when skipped or idle (idle
      only when no city was live); otherwise it ran over a non-empty
      snapshot holding every live city, tried each once, failed exactly on
      the failing fetches, and left the cache at `Refresh` of the snapshot. */
  ghost predicate TickEffect(before: CacheState, after: CacheState, report: TickReport,
                             fetch: string -> Result<Option<string>, Failure>, now: int)
  {
    && (report.Skipped? || report.Idle? ==> after == before)
    && (report.Idle? ==> LiveCities(before, now) == {})
    && (report.Ran? ==>
          && report.snapshot != {}
          && LiveCities(before, now) <= report.snapshot <= before.members
          && report.workers == PoolSize(|report.snapshot|)
          && NoDuplicates(report.attempted)
          && (forall c :: c in report.attempted <==> c in report.snapshot)
          && report.failed == FailedAmong(report.snapshot, fetch)
          && after == Refresh(before, report.snapshot, fetch, now))
  }

  /** After a tick over `snapshot`, a city of the snapshot whose fetch
      succeeded reads back the fetched payload until it expires; every other
      city reads back as before the tick. */
  lemma TickReadBack(s: CacheState, snapshot: set<string>, fetch: string -> Result<Option<string>, Failure>, now: int, city: string, later: int)
    requires Invariant(s) && snapshot <= s.members && !IsBlank(city) && now <= later
    ensures var r := Refresh(s, snapshot, fetch, now);
            var f := fetch(city);
      if city in snapshot && Writes(f) then
        && (later - now < EXPIRATION_NANOS ==> Lookup(r, Some(city), later) == Success(f.value.value))
        && (later - now >= EXPIRATION_NANOS ==>
              Lookup(r, Some(city), later).Failure? && Lookup(r, Some(city), later).error.Is(CityNotFound))
      else
        Lookup(r, Some(city), later) == Lookup(s, Some(city), later)
  {
  }

  /** `WeatherUpdater` over the cache manager and API client it was built with. */
  class WeatherUpdater {
    const cacheManager: WeatherCacheManager
    const apiClient: Client
    const interval: int
    /** The tick lock is held. */
    var tickInProgress: bool
    /** The scheduler has been shut down. */
    var stopped: bool

    ghost predicate Valid()
      reads this, cacheManager
    {
      interval > 0 && cacheManager.Valid()
    }

    /** The constructor after its interval check: polling starts at once. */
    constructor (cacheManager: WeatherCacheManager, apiClient: Client, interval: int)
      requires interval > 0 && cacheManager.Valid()
      ensures Valid()
      ensures this.cacheManager == cacheManager && this.apiClient == apiClient && this.interval == interval
      ensures !tickInProgress && !stopped
    {
      this.cacheManager := cacheManager;
      this.apiClient := apiClient;
      this.interval := interval;
      tickInProgress := false;
      stopped := false;
    }

    /** `new WeatherUpdater(cacheManager, apiClient, interval)`: a running
        updater, or the exception for an interval that is not positive. */
    static method Start(cacheManager: WeatherCacheManager, apiClient: Client, interval: int)
        returns (r: Result<WeatherUpdater, Failure>)
      requires cacheManager.Valid()
      ensures r.Success? <==> interval > 0
      ensures r.Failure? ==> r.error == ValidateInterval(interval).error
      ensures r.Success? ==> && fresh(r.value) && r.value.Valid()
                             && r.value.cacheManager == cacheManager && r.value.apiClient == apiClient
                             && r.value.interval == interval && !r.value.tickInProgress && !r.value.stopped
    {
      var valid := ValidateInterval(interval);
      if valid.Fail? {
        return Failure(valid.error);
      }
      var u := new WeatherUpdater(cacheManager, apiClient, interval);
      r := Success(u);
    }

    /** `stop`: shuts the scheduler down; stopping again changes nothing. */
    method Stop()
      modifies this
      ensures stopped && tickInProgress == old(tickInProgress)
    {
      stopped := true;
    }

    /** One firing of the fixed-rate schedule: no tick once the scheduler
        is shut down, otherwise one call of `updateWeather`. */
    method SchedulerFires(replies: string -> Reply, now: int) returns (report: Option<TickReport>)
      requires Valid()
      modifies this, cacheManager
      ensures Valid() && stopped == old(stopped) && tickInProgress == old(tickInProgress)
      ensures old(stopped) ==> report == None && cacheManager.State() == old(cacheManager.State())
      ensures !old(stopped) ==> && report.Some? && (report.value.Skipped? <==> old(tickInProgress))
                                && TickEffect(old(cacheManager.State()), cacheManager.State(), report.value,
                                              Fetcher(apiClient, replies), now)
    {
      if stopped {
        return None;
      }
      var tick := UpdateWeather(replies, now);
      report := Some(tick);
    }

    /** `updateWeather`: skipped while another tick holds the lock; otherwise
        every city of the snapshot is fetched once and each successful
        result written back, the failures of some cities leaving the others
        untouched; the lock is released on every path. */
    method UpdateWeather(replies: string -> Reply, now: int) returns (report: TickReport)
      requires Valid()
      modifies this, cacheManager
      ensures Valid() && tickInProgress == old(tickInProgress) && stopped == old(stopped)
      ensures old(tickInProgress) <==> report.Skipped?
      ensures TickEffect(old(cacheManager.State()), cacheManager.State(), report, Fetcher(apiClient, replies), now)
    {
      if tickInProgress {
        return Skipped;
      }
      tickInProgress := true;
      var cities := cacheManager.GetCachedCities(now);
      if cities == {} {
        tickInProgress := false;
        return Idle;
      }
      var workers := PoolSize(|cities|);
      var attempted, failed := RefreshAll(cities, replies, now);
      tickInProgress := false;
      report := Ran(cities, workers, attempted, failed);
    }

    /** The fan-out of a tick: every city of the snapshot is submitted
        once, in some order, and the tick goes on past every caught
        failure. */
    method RefreshAll(cities: set<string>, replies: string -> Reply, now: int) returns (attempted: seq<string>, failed: set<string>)
      requires cacheManager.Valid() && cities <= cacheManager.State().members
      modifies cacheManager
      ensures cacheManager.Valid()
      ensures NoDuplicates(attempted) && (forall c :: c in attempted <==> c in cities)
      ensures failed == FailedAmong(cities, Fetcher(apiClient, replies))
      ensures cacheManager.State() == Refresh(old(cacheManager.State()), cities, Fetcher(apiClient, replies), now)
    {
      ghost var s0 := cacheManager.State();
      ghost var fetch := Fetcher(apiClient, replies);
      ghost var done: set<string> := {};
      var remaining := cities;
      attempted, failed := [], {};
      assert Refresh(s0, {}, fetch, now) == s0;
      ProgressStart(cities, fetch);
      while remaining != {}
        invariant Progress(cities, remaining, done, attempted, failed, fetch)
        invariant cacheManager.State() == Refresh(s0, done, fetch, now)
        decreases |remaining|
      {
        var city :| city in remaining;
        ghost var before := cacheManager.State();
        RefreshKeepsInvariant(s0, done, fetch, now);
        var ok := RefreshCity(city, replies, now);
        TickStep(s0, done, city, fetch, now, before, cacheManager.State(), ok);
        ProgressStep(cities, remaining, done, attempted, failed, fetch, city, ok);
        failed := if ok then failed else failed + {city};
        attempted := attempted + [city];
        remaining := remaining - {city};
        done := done + {city};
      }
      ProgressEnd(cities, remaining, done, attempted, failed, fetch);
      RefreshKeepsInvariant(s0, done, fetch, now);
    }

    /** One submitted task of a tick: fetch `city`, write a successful result
        back with `updateCache`, and catch whatever either throws. `ok` is
        false when something was caught; the cache then is as it was. */
    method RefreshCity(city: string, replies: string -> Reply, now: int) returns (ok: bool)
      requires cacheManager.Valid() && city in cacheManager.State().members
      modifies cacheManager
      ensures cacheManager.Valid()
      ensures ok == Writes(Fetcher(apiClient, replies)(city))
      ensures var s := old(cacheManager.State());
        if ok then
          cacheManager.State() == CacheState(s.entries[city := Entry(Fetcher(apiClient, replies)(city).value.value, now)], s.order, s.members)
        else
          cacheManager.State() == s
    {
      var fetched := FetchWeather(apiClient, Some(city), replies(city));
      assert fetched == Fetcher(apiClient, replies)(city);
      if fetched.Failure? {
        return false;
      }
      assert !IsBlank(city);
      if !IsNullOrBlank(fetched.value) {
        RewriteKeepsOrder(cacheManager.State(), city, fetched.value.value, now);
      }
      var written := cacheManager.UpdateCache(Some(city), fetched.value, now);
      ok := written.Pass?;
    }
  }
}
