/** The bounded, expiring city cache of `WeatherCacheManager`.

    The manager keeps three structures side by side: the expiring map from
    city to JSON payload (`cache`), the queue of cities in first-insertion
    order (`cityOrder`) and the set of cities it holds (`citySet`). The first
    half of this module states their behaviour on values (`CacheState`); the
    class `WeatherCacheManager` at the end updates the three fields in place
    and is proved against those functions.

    The cache library's ticker is an integer clock reading in nanoseconds,
    passed to every operation that consults it. */
module WeatherCache {
  import opened Outcomes
  import opened SdkErrors
  import opened JavaStrings

  /** The most cities the manager keeps. */
  const MAX_CITIES: nat := 10

  /** Ten minutes, in ticker nanoseconds: an entry expires this long after its write. */
  const EXPIRATION_NANOS: int := 10 * 60 * 1_000_000_000

  /** A payload and the ticker reading at which it was written. */
  datatype Entry = Entry(data: string, writtenAt: int)

  /** The manager's three fields: the expiring map, the insertion-order queue
      (oldest first) and the membership set. */
  datatype CacheState = CacheState(entries: map<string, Entry>, order: seq<string>, members: set<string>)

  function Empty(): CacheState {
    CacheState(map[], [], {})
  }

  ghost predicate NoDuplicates(o: seq<string>) {
    forall i, j :: 0 <= i < j < |o| ==> o[i] != o[j]
  }

  /** The queue holds each member exactly once, the map holds exactly the
      members, and no member is a blank name. */
  ghost predicate Consistent(s: CacheState) {
    && NoDuplicates(s.order)
    && (forall c :: c in s.order <==> c in s.members)
    && s.entries.Keys == s.members
    && (forall c :: c in s.members ==> !IsBlank(c))
  }

  /** The manager's invariant between operations: consistent and within capacity. */
  ghost predicate Invariant(s: CacheState) {
    Consistent(s) && |s.order| <= MAX_CITIES
  }

  /** The cache library treats an entry as gone once its age reaches the window. */
  predicate Expired(e: Entry, now: int) {
    now - e.writtenAt >= EXPIRATION_NANOS
  }

  /** The cities whose entries a read at `now` would still return. */
  ghost function LiveCities(s: CacheState, now: int): set<string> {
    set c | c in s.entries && !Expired(s.entries[c], now)
  }

  /** The message of the exception for a null or blank city name. */
  const INVALID_CITY_MESSAGE: string := "City name cannot be null or empty."

  /** The message of the exception for a null or blank payload. */
  function DataRequiredMessage(city: string): string {
    "Weather data cannot be null or empty for city: " + city
  }

  /** `validateCityName`: a null or blank name is refused. */
  function ValidateCityName(cityName: Option<string>): (r: Outcome<Failure>)
    ensures r.Pass? <==> !IsNullOrBlank(cityName)
    ensures r.Fail? ==> r.error.Is(InvalidCity)
  {
    if IsNullOrBlank(cityName) then Fail(SdkError(InvalidCity, INVALID_CITY_MESSAGE)) else Pass
  }

  /** The message of the exception for a city with no live entry. */
  function NotFoundMessage(city: string): string {
    "Weather data for city '" + city + "' is not found in cache."
  }

  /** `getCachedData` at ticker reading `now`. */
  function Lookup(s: CacheState, cityName: Option<string>, now: int): (r: Result<string, Failure>)
    ensures IsNullOrBlank(cityName) ==> r.Failure? && r.error.Is(InvalidCity)
    ensures r.Success? <==>
              !IsNullOrBlank(cityName) && cityName.value in s.entries && !Expired(s.entries[cityName.value], now)
    ensures r.Success? ==> r.value == s.entries[cityName.value].data
    ensures !IsNullOrBlank(cityName) && r.Failure? ==> r.error.Is(CityNotFound)
  {
    match ValidateCityName(cityName)
    case Fail(e) => Failure(e)
    case Pass =>
      var city := cityName.value;
      if city in s.entries && !Expired(s.entries[city], now) then
        Success(s.entries[city].data)
      else
        Failure(SdkError(CityNotFound, NotFoundMessage(city)))
  }

  /** The write of `updateCache` before eviction: the city joins the set, its
      entry is replaced, and it is appended to the queue only if it was not
      already a member. */
  function Insert(s: CacheState, city: string, data: string, now: int): CacheState {
    CacheState(
      s.entries[city := Entry(data, now)],
      if city in s.members then s.order else s.order + [city],
      s.members + {city})
  }

  /** How many cities must leave a queue of length `n`. */
  function Excess(n: nat): nat {
    if n > MAX_CITIES then n - MAX_CITIES else 0
  }

  /** The first `k` cities of the queue. */
  function Prefix(o: seq<string>, k: nat): set<string>
    requires k <= |o|
  {
    set i | 0 <= i < k :: o[i]
  }

  /** `removeOldestEntry`: the cities at the front of the queue beyond
      capacity leave the queue, the map and the set. */
  function EvictOldest(s: CacheState): CacheState {
    var k := Excess(|s.order|);
    var gone := Prefix(s.order, k);
    CacheState(s.entries - gone, s.order[k..], s.members - gone)
  }

  /** `updateCache` at ticker reading `now`: the new state, or the exception. */
  function Update(s: CacheState, cityName: Option<string>, data: Option<string>, now: int): (r: Result<CacheState, Failure>)
    ensures IsNullOrBlank(cityName) ==> r.Failure? && r.error.Is(InvalidCity)
    ensures !IsNullOrBlank(cityName) && IsNullOrBlank(data) ==> r.Failure? && r.error.Is(WeatherSdk)
    ensures r.Success? <==> !IsNullOrBlank(cityName) && !IsNullOrBlank(data)
  {
    match ValidateCityName(cityName)
    case Fail(e) => Failure(e)
    case Pass =>
      if IsNullOrBlank(data) then
        Failure(SdkError(WeatherSdk, DataRequiredMessage(cityName.value)))
      else
        Success(EvictOldest(Insert(s, cityName.value, data.value, now)))
  }

  /** Every successful write keeps the queue free of duplicates, equal to the
      set and to the map's keys, free of blank names, and at most ten long. */
  lemma UpdateKeepsInvariant(s: CacheState, cityName: Option<string>, data: Option<string>, now: int)
    requires Invariant(s)
    ensures Update(s, cityName, data, now).Success? ==> Invariant(Update(s, cityName, data, now).value)
  {
    if Update(s, cityName, data, now).Success? {
      InsertKeepsConsistent(s, cityName.value, data.value, now);
      EvictOldestIsValid(Insert(s, cityName.value, data.value, now));
    }
  }

  lemma InsertKeepsConsistent(s: CacheState, city: string, data: string, now: int)
    requires Invariant(s) && !IsBlank(city)
    ensures Consistent(Insert(s, city, data, now))
    ensures |Insert(s, city, data, now).order| <= MAX_CITIES + 1
  {
    var o := Insert(s, city, data, now).order;
    if city !in s.members {
      assert city !in s.order;
      forall i, j | 0 <= i < j < |o| ensures o[i] != o[j] {
        if j == |o| - 1 {
          assert o[i] == s.order[i];
        }
      }
    }
  }

  /** Evicting from a consistent state brings it back within capacity and
      keeps it consistent. */
  lemma EvictOldestIsValid(s: CacheState)
    requires Consistent(s)
    ensures Invariant(EvictOldest(s))
  {
    var k := Excess(|s.order|);
    var gone := Prefix(s.order, k);
    var r := EvictOldest(s);
    assert NoDuplicates(r.order) by {
      forall i, j | 0 <= i < j < |r.order| ensures r.order[i] != r.order[j] {
        assert r.order[i] == s.order[k + i] && r.order[j] == s.order[k + j];
      }
    }
    forall c | c in r.order ensures c in r.members {
      SuffixNotInPrefix(s.order, k, c);
    }
    forall c | c in r.members ensures c in r.order {
      PrefixOrSuffix(s.order, k, c);
    }
  }

  lemma PrefixStep(o: seq<string>, k: nat)
    requires k < |o|
    ensures Prefix(o, 0) == {}
    ensures Prefix(o, k + 1) == Prefix(o, k) + {o[k]}
  {
    assert o[k] in Prefix(o, k + 1);
  }

  /** Polling the front of what is left of queue `o` after `k` polls drops
      the next city of `o` from the map and the set. */
  lemma PollStep(o: seq<string>, e: map<string, Entry>, m: set<string>, k: nat)
    requires k < |o|
    ensures o[k..][0] == o[k] && o[k..][1..] == o[k + 1..]
    ensures e - Prefix(o, k + 1) == (e - Prefix(o, k)) - {o[k]}
    ensures m - Prefix(o, k + 1) == (m - Prefix(o, k)) - {o[k]}
  {
    PrefixStep(o, k);
  }

  lemma SuffixNotInPrefix(o: seq<string>, k: nat, c: string)
    requires NoDuplicates(o) && k <= |o| && c in o[k..]
    ensures c in o && c !in Prefix(o, k)
  {
    var j :| 0 <= j < |o| - k && o[k..][j] == c;
    assert o[k + j] == c;
    forall i | 0 <= i < k ensures o[i] != c {}
  }

  lemma PrefixNotInSuffix(o: seq<string>, k: nat, i: nat)
    requires NoDuplicates(o) && i < k <= |o|
    ensures o[i] !in o[k..]
  {
    forall j | 0 <= j < |o| - k ensures o[k..][j] != o[i] {
      assert o[k..][j] == o[k + j];
    }
  }

  lemma PrefixOrSuffix(o: seq<string>, k: nat, c: string)
    requires k <= |o| && c in o && c !in Prefix(o, k)
    ensures c in o[k..]
  {
    var j :| 0 <= j < |o| && o[j] == c;
    forall i | 0 <= i < k ensures o[i] in Prefix(o, k) {}
    assert j >= k;
    assert o[k..][j - k] == c;
  }

  /** A write of a non-blank city and payload is the insert followed by eviction. */
  lemma UpdateAccepted(s: CacheState, city: string, data: string, now: int)
    requires !IsBlank(city) && !IsBlank(data)
    ensures Update(s, Some(city), Some(data), now) == Success(EvictOldest(Insert(s, city, data, now)))
  {
    assert ValidateCityName(Some(city)) == Pass;
  }

  lemma EvictOldestBelowCapacity(s: CacheState)
    requires |s.order| <= MAX_CITIES
    ensures EvictOldest(s) == s
  {
    assert Prefix(s.order, 0) == {};
    assert s.order[0..] == s.order;
  }

  // ---------------------------------------------------------------------
  // Properties of the operations

  /** Writing a city that is already cached replaces its payload and write
      time and leaves the queue, the set and every other entry as they were. */
  lemma RewriteKeepsOrder(s: CacheState, city: string, data: string, now: int)
    requires Invariant(s) && city in s.members && !IsBlank(data)
    ensures Update(s, Some(city), Some(data), now)
         == Success(CacheState(s.entries[city := Entry(data, now)], s.order, s.members))
  {
    UpdateAccepted(s, city, data, now);
    EvictOldestBelowCapacity(Insert(s, city, data, now));
    assert s.members + {city} == s.members;
  }

  /** Writing a new city appends it to the back of the queue; when the queue
      was full, the city at its front, and only that city, leaves the queue,
      the set and the map. */
  lemma NewCityEvictsFront(s: CacheState, city: string, data: string, now: int)
    requires Invariant(s) && !IsBlank(city) && city !in s.members && !IsBlank(data)
    ensures var r := Update(s, Some(city), Some(data), now).value;
      if |s.order| < MAX_CITIES then
        r == CacheState(s.entries[city := Entry(data, now)], s.order + [city], s.members + {city})
      else
        var oldest := s.order[0];
        && r.order == s.order[1..] + [city]
        && r.members == s.members + {city} - {oldest}
        && r.entries == s.entries[city := Entry(data, now)] - {oldest}
  {
    UpdateAccepted(s, city, data, now);
    var s' := Insert(s, city, data, now);
    assert s'.order == s.order + [city];
    if |s.order| < MAX_CITIES {
      EvictOldestBelowCapacity(s');
    } else {
      assert Excess(|s'.order|) == 1;
      PrefixStep(s'.order, 0);
      assert s'.order[1..] == s.order[1..] + [city];
    }
  }

  /** A write is read back: right after it, the city returns the payload
      written; it keeps returning it until the expiry window has passed, and
      from then on it is not found, though no other operation ran. */
  lemma ReadAfterWrite(s: CacheState, city: string, data: string, written: int, now: int)
    requires Invariant(s) && !IsBlank(city) && !IsBlank(data) && written <= now
    ensures var r := Update(s, Some(city), Some(data), written).value;
      if now - written < EXPIRATION_NANOS then
        Lookup(r, Some(city), now) == Success(data)
      else
        Lookup(r, Some(city), now).Failure? && Lookup(r, Some(city), now).error.Is(CityNotFound)
  {
    var r := Update(s, Some(city), Some(data), written).value;
    if city in s.members {
      RewriteKeepsOrder(s, city, data, written);
    } else {
      NewCityEvictsFront(s, city, data, written);
      if |s.order| == MAX_CITIES {
        assert s.order[0] in s.order;
        assert s.order[0] != city;
      }
    }
    assert city in r.entries && r.entries[city] == Entry(data, written);
  }

  /** A write leaves every other city readable as before, unless that city
      was the front of a full queue and a new city pushed it out. */
  lemma WriteKeepsOthers(s: CacheState, city: string, data: string, written: int, other: string, now: int)
    requires Invariant(s) && !IsBlank(city) && !IsBlank(data) && other != city && !IsBlank(other)
    ensures var r := Update(s, Some(city), Some(data), written).value;
      if city !in s.members && |s.order| == MAX_CITIES && other == s.order[0] then
        Lookup(r, Some(other), now).Failure? && Lookup(r, Some(other), now).error.Is(CityNotFound)
      else
        Lookup(r, Some(other), now) == Lookup(s, Some(other), now)
  {
    if city in s.members {
      RewriteKeepsOrder(s, city, data, written);
    } else {
      NewCityEvictsFront(s, city, data, written);
    }
  }

  /** Validation failures: a null or blank city is refused by both
      operations, a null or blank payload by `updateCache`, each with the
      source's exception kind. */
  lemma RejectsBlankInput(s: CacheState, cityName: Option<string>, data: Option<string>, now: int)
    requires IsNullOrBlank(cityName) || IsNullOrBlank(data)
    ensures Update(s, cityName, data, now).Failure?
    ensures IsNullOrBlank(cityName) ==>
              Lookup(s, cityName, now).error.Is(InvalidCity) && Update(s, cityName, data, now).error.Is(InvalidCity)
  {
  }

  // ---------------------------------------------------------------------
  // A run of writes

  /** The last `n` elements of `o` (all of `o` when it is shorter). */
  function LastN(o: seq<string>, n: nat): (r: seq<string>)
    ensures |r| <= n
  {
    if |o| > n then o[|o| - n..] else o
  }

  /** `updateCache(cities[i], payloads[i])` called for each `i` in turn; a
      call that fails leaves the state as it was. */
  function WriteAll(s: CacheState, cities: seq<string>, payloads: seq<string>, now: int): CacheState
    requires |cities| == |payloads|
  {
    if cities == [] then s
    else
      var n := |cities| - 1;
      var prev := WriteAll(s, cities[..n], payloads[..n], now);
      match Update(prev, Some(cities[n]), Some(payloads[n]), now)
      case Success(next) => next
      case Failure(_) => prev
  }

  /** Every city of the run that `r` holds carries the payload of its own
      write, stamped `now`. */
  ghost predicate OwnPayloads(r: CacheState, cities: seq<string>, payloads: seq<string>, now: int)
    requires |cities| == |payloads|
  {
    forall i :: 0 <= i < |cities| && cities[i] in r.entries ==> r.entries[cities[i]] == Entry(payloads[i], now)
  }

  /** Writes of distinct, previously absent, non-blank cities with non-blank
      payloads: the queue ends as the last ten cities of the old queue
      followed by the new ones, and every city still cached holds the payload
      of its own write. */
  lemma {:induction false} WriteAllKeepsNewest(s: CacheState, cities: seq<string>, payloads: seq<string>, now: int)
    requires Invariant(s) && |cities| == |payloads| && NoDuplicates(cities)
    requires forall i :: 0 <= i < |cities| ==> !IsBlank(cities[i]) && !IsBlank(payloads[i]) && cities[i] !in s.members
    ensures var r := WriteAll(s, cities, payloads, now);
      && Invariant(r)
      && r.order == LastN(s.order + cities, MAX_CITIES)
      && OwnPayloads(r, cities, payloads, now)
  {
    if cities != [] {
      var n := |cities| - 1;
      var init, c, d := cities[..n], cities[n], payloads[n];
      assert NoDuplicates(init);
      WriteAllKeepsNewest(s, init, payloads[..n], now);
      var prev := WriteAll(s, init, payloads[..n], now);
      assert c !in s.order + init by {
        assert c !in s.members;
        forall i | 0 <= i < n ensures init[i] != c {}
      }
      WriteOneNew(prev, s.order + init, c, d, now);
      AppendLast(s.order, cities);
      EntriesAfterWrite(prev, WriteAll(s, cities, payloads, now), cities, payloads, now);
    }
  }

  lemma AppendLast(o: seq<string>, x: seq<string>)
    requires x != []
    ensures o + x == o + x[..|x| - 1] + [x[|x| - 1]]
  {
    assert x == x[..|x| - 1] + [x[|x| - 1]];
  }

  /** The payloads of a run of writes survive one more write that rewrites
      only its own city. */
  lemma EntriesAfterWrite(prev: CacheState, r: CacheState, cities: seq<string>, payloads: seq<string>, now: int)
    requires cities != [] && |cities| == |payloads| && NoDuplicates(cities)
    requires OwnPayloads(prev, cities[..|cities| - 1], payloads[..|cities| - 1], now)
    requires var c := cities[|cities| - 1];
      && c in r.entries && r.entries[c] == Entry(payloads[|cities| - 1], now)
      && forall c' :: c' in r.entries && c' != c ==> c' in prev.entries && r.entries[c'] == prev.entries[c']
    ensures OwnPayloads(r, cities, payloads, now)
  {
    var n := |cities| - 1;
    forall i | 0 <= i < |cities| && cities[i] in r.entries ensures r.entries[cities[i]] == Entry(payloads[i], now) {
      if i < n {
        assert cities[..n][i] == cities[i] && payloads[..n][i] == payloads[i];
      }
    }
  }

  /** One write of a city absent from the queue's history `x`, whose newest
      ten cities form the queue. */
  lemma WriteOneNew(prev: CacheState, x: seq<string>, c: string, d: string, now: int)
    requires Invariant(prev) && prev.order == LastN(x, MAX_CITIES)
    requires !IsBlank(c) && !IsBlank(d) && c !in x
    ensures Update(prev, Some(c), Some(d), now).Success?
    ensures var r := Update(prev, Some(c), Some(d), now).value;
      && Invariant(r)
      && r.order == LastN(x + [c], MAX_CITIES)
      && c in r.members && r.entries[c] == Entry(d, now)
      && forall c' :: c' in r.members && c' != c ==> c' in prev.members && r.entries[c'] == prev.entries[c']
  {
    LastNSubset(x, MAX_CITIES);
    assert c !in prev.members;
    UpdateAccepted(prev, c, d, now);
    UpdateKeepsInvariant(prev, Some(c), Some(d), now);
    NewCityEvictsFront(prev, c, d, now);
    LastNAppend(x, c, MAX_CITIES);
    if |prev.order| == MAX_CITIES {
      assert prev.order[0] in prev.order;
    }
  }

  /** Keeping the newest ten drops exactly the excess over ten from the front. */
  lemma LastNDropsExcess(o: seq<string>)
    ensures LastN(o, MAX_CITIES) == o[Excess(|o|)..]
  {
    if |o| <= MAX_CITIES {
      assert o[0..] == o;
    }
  }

  lemma LastNSubset(x: seq<string>, n: nat)
    ensures forall c :: c in LastN(x, n) ==> c in x
  {
    forall c | c in LastN(x, n) ensures c in x {
      if |x| > n {
        var j :| 0 <= j < n && x[|x| - n..][j] == c;
        assert x[|x| - n + j] == c;
      }
    }
  }

  /** Appending one element after keeping the newest `n` keeps the same as
      keeping the newest `n` of the longer sequence. */
  lemma LastNAppend(x: seq<string>, c: string, n: nat)
    requires n > 0
    ensures var y := LastN(x, n) + [c];
      (if |y| > n then y[1..] else y) == LastN(x + [c], n)
  {
    if |x| > n {
      assert x[|x| - n..][1..] + [c] == (x + [c])[|x| + 1 - n..];
    }
  }

  /** The cities of the manager's eviction unit test: City1 to City12. */
  function TestCities(): seq<string> {
    ["City1", "City2", "City3", "City4", "City5", "City6",
     "City7", "City8", "City9", "City10", "City11", "City12"]
  }

  /** The payloads of the eviction unit test: WeatherData1 to WeatherData12. */
  function TestPayloads(): seq<string> {
    ["WeatherData1", "WeatherData2", "WeatherData3", "WeatherData4", "WeatherData5", "WeatherData6",
     "WeatherData7", "WeatherData8", "WeatherData9", "WeatherData10", "WeatherData11", "WeatherData12"]
  }

  lemma NotBlank(s: string, k: nat)
    requires k < |s| && s[k] > ' '
    ensures !IsBlank(s)
  {
    TrimEmptyIffAllSpace(s);
  }

  /** Writes of distinct non-blank cities with non-blank payloads into an
      empty manager at one ticker reading: all but the last ten cities are
      not found, and the last ten return their own payloads. */
  lemma WritesKeepLastTen(cities: seq<string>, payloads: seq<string>, now: int)
    requires |cities| == |payloads| && NoDuplicates(cities)
    requires forall i :: 0 <= i < |cities| ==> !IsBlank(cities[i]) && !IsBlank(payloads[i])
    ensures var r := WriteAll(Empty(), cities, payloads, now);
      && (forall i :: 0 <= i < Excess(|cities|) ==>
            Lookup(r, Some(cities[i]), now).Failure? && Lookup(r, Some(cities[i]), now).error.Is(CityNotFound))
      && (forall i :: Excess(|cities|) <= i < |cities| ==> Lookup(r, Some(cities[i]), now) == Success(payloads[i]))
  {
    WriteAllKeepsNewest(Empty(), cities, payloads, now);
    var r := WriteAll(Empty(), cities, payloads, now);
    assert [] + cities == cities;
    LastNDropsExcess(cities);
    ReadBackNewest(r, cities, payloads, Excess(|cities|), now);
  }

  /** A state whose queue is a list of distinct cities without its first
      `k`, each cached city holding its own payload, reads back exactly the
      cities of its queue. */
  lemma ReadBackNewest(r: CacheState, cities: seq<string>, payloads: seq<string>, k: nat, now: int)
    requires k <= |cities| == |payloads| && NoDuplicates(cities)
    requires Consistent(r) && r.order == cities[k..]
    requires forall i :: 0 <= i < k ==> !IsBlank(cities[i])
    requires OwnPayloads(r, cities, payloads, now)
    ensures forall i :: 0 <= i < k ==>
              Lookup(r, Some(cities[i]), now).Failure? && Lookup(r, Some(cities[i]), now).error.Is(CityNotFound)
    ensures forall i :: k <= i < |cities| ==> Lookup(r, Some(cities[i]), now) == Success(payloads[i])
  {
    forall i | 0 <= i < k
      ensures Lookup(r, Some(cities[i]), now).Failure? && Lookup(r, Some(cities[i]), now).error.Is(CityNotFound)
    {
      PrefixNotInSuffix(cities, k, i);
      NotCachedNotFound(r, cities[i], now);
    }
    forall i | k <= i < |cities| ensures Lookup(r, Some(cities[i]), now) == Success(payloads[i]) {
      assert r.order[i - k] == cities[i];
      FreshEntryFound(r, cities[i], payloads[i], now);
    }
  }

  lemma NotCachedNotFound(r: CacheState, city: string, now: int)
    requires !IsBlank(city) && city !in r.entries
    ensures Lookup(r, Some(city), now).Failure? && Lookup(r, Some(city), now).error.Is(CityNotFound)
  {
  }

  lemma FreshEntryFound(r: CacheState, city: string, data: string, now: int)
    requires !IsBlank(city) && city in r.entries && r.entries[city] == Entry(data, now)
    ensures Lookup(r, Some(city), now) == Success(data)
  {
  }

  /** The eviction unit test's writes satisfy the conditions of
      `WritesKeepLastTen`, which then says that City1 and City2 are not
      found and City3 to City12 are. */
  lemma TestWritesWellFormed()
    ensures |TestCities()| == |TestPayloads()| == 12 && Excess(12) == 2
    ensures NoDuplicates(TestCities())
    ensures forall i :: 0 <= i < 12 ==> !IsBlank(TestCities()[i]) && !IsBlank(TestPayloads()[i])
  {
    var cs, ps := TestCities(), TestPayloads();
    forall i | 0 <= i < 12 ensures !IsBlank(cs[i]) && !IsBlank(ps[i]) {
      NotBlank(cs[i], 0);
      NotBlank(ps[i], 0);
    }
    forall i, j | 0 <= i < j < 12 ensures cs[i] != cs[j] {
      if |cs[i]| == |cs[j]| {
        if |cs[i]| == 5 {
          assert cs[i][4] != cs[j][4];
        } else {
          assert cs[i][5] != cs[j][5];
        }
      }
    }
  }

  /** The eviction unit test's conclusion on its own data: after City1 to
      City12 are written into an empty cache, City1 and City2 are not found
      and City3 to City12 read back their payloads. */
  lemma TestWritesEvictFirstTwo(now: int)
    ensures var r := WriteAll(Empty(), TestCities(), TestPayloads(), now);
      && (forall i :: 0 <= i < 2 ==>
            Lookup(r, Some(TestCities()[i]), now).Failure? && Lookup(r, Some(TestCities()[i]), now).error.Is(CityNotFound))
      && (forall i :: 2 <= i < 12 ==> Lookup(r, Some(TestCities()[i]), now) == Success(TestPayloads()[i]))
  {
    TestWritesWellFormed();
    WritesKeepLastTen(TestCities(), TestPayloads(), now);
  }

  // ---------------------------------------------------------------------
  // The manager

  /** `WeatherCacheManager`: the three structures as fields updated in place. */
  class WeatherCacheManager {
    var cache: map<string, Entry>
    var cityOrder: seq<string>
    var citySet: set<string>

    function State(): CacheState
      reads this
    {
      CacheState(cache, cityOrder, citySet)
    }

    ghost predicate Valid()
      reads this
    {
      Invariant(State())
    }

    /** A new manager holds no city. */
    constructor ()
      ensures Valid() && State() == Empty()
    {
      cache, cityOrder, citySet := map[], [], {};
    }

    /** `getCachedData`: the payload of a city written less than ten minutes
        before `now`; `InvalidCity` for a null or blank name, `CityNotFound`
        for a city never written, evicted or expired. */
    method GetCachedData(cityName: Option<string>, now: int) returns (r: Result<string, Failure>)
      requires Valid()
      ensures r == Lookup(State(), cityName, now)
    {
      var valid := ValidateCityName(cityName);
      if valid.Fail? {
        return Failure(valid.error);
      }
      var city := cityName.value;
      if city in cache && !Expired(cache[city], now) {
        r := Success(cache[city].data);
      } else {
        r := Failure(SdkError(CityNotFound, NotFoundMessage(city)));
      }
    }

    /** `updateCache`: validates both arguments before touching any field,
        then writes the entry, appends a new city to the queue and evicts
        from the front of the queue while it is over capacity. */
    method UpdateCache(cityName: Option<string>, data: Option<string>, now: int) returns (r: Outcome<Failure>)
      requires Valid()
      modifies this
      ensures Valid()
      ensures match Update(old(State()), cityName, data, now)
              case Success(next) => r == Pass && State() == next
              case Failure(e) => r == Fail(e) && State() == old(State())
    {
      var valid := ValidateCityName(cityName);
      if valid.Fail? {
        return valid;
      }
      if IsNullOrBlank(data) {
        return Fail(SdkError(WeatherSdk, DataRequiredMessage(cityName.value)));
      }
      var city := cityName.value;
      ghost var s0 := State();
      InsertKeepsConsistent(s0, city, data.value, now);
      UpdateAccepted(s0, city, data.value, now);
      var alreadyExists := city in citySet;
      citySet := citySet + {city};
      cache := cache[city := Entry(data.value, now)];
      if !alreadyExists {
        cityOrder := cityOrder + [city];
      }
      assert State() == Insert(s0, city, data.value, now);
      if |cityOrder| > MAX_CITIES {
        RemoveOldestEntry();
      } else {
        EvictOldestBelowCapacity(State());
      }
      r := Pass;
    }

    /** `getCachedCities`: at least every city a read at `now` would return
        and only cities the manager holds. Whether the library's key view
        also lists entries that have expired but were not yet cleaned up is
        left open; this body lists them. */
    method GetCachedCities(ghost now: int) returns (cities: set<string>)
      requires Valid()
      ensures LiveCities(State(), now) <= cities <= State().members
    {
      cities := cache.Keys;
    }

    /** `clearCache`: the map, the queue and the set are all emptied. */
    method ClearCache()
      modifies this
      ensures Valid() && State() == Empty()
    {
      cache := map[];
      cityOrder := [];
      citySet := {};
    }

    /** `removeOldestEntry`: polls the queue while it is over capacity,
        dropping each polled city from the map and the set. */
    method RemoveOldestEntry()
      requires Consistent(State())
      modifies this
      ensures State() == EvictOldest(old(State()))
      ensures Valid()
    {
      ghost var o, e0, m0 := cityOrder, cache, citySet;
      ghost var polled := 0;
      while |cityOrder| > MAX_CITIES
        invariant polled <= Excess(|o|) && cityOrder == o[polled..]
        invariant cache == e0 - Prefix(o, polled) && citySet == m0 - Prefix(o, polled)
        decreases |cityOrder|
      {
        var oldestCity := cityOrder[0];
        PollStep(o, e0, m0, polled);
        cityOrder := cityOrder[1..];
        cache := cache - {oldestCity};
        citySet := citySet - {oldestCity};
        polled := polled + 1;
      }
      assert polled == Excess(|o|);
      assert State() == EvictOldest(CacheState(e0, o, m0));
      EvictOldestIsValid(old(State()));
    }
  }
}
