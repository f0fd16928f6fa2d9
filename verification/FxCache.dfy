/** The daily FX lookup with its persistent cache, `src/data/fx.py`. */
module FxCache {
  import opened Numbers

  datatype Key = Key(pair: string, day: int)

  /** What a lookup ends in: a rate, or one of the two errors the program raises. */
  datatype Lookup = Rate(value: real) | UnsupportedPair | NoRateFound

  type Cache = map<Key, real>

  /** One request to the bank per key; none means that it failed or that nothing is published for the day. */
  type Fetch = Key -> Option<real>

  const WINDOW := 8
  const EUR_NOK := "EUR/NOK"
  const USD_NOK := "USD/NOK"

  function Upper(text: string): string {
    seq(|text|, i requires 0 <= i < |text| => if 'a' <= text[i] <= 'z' then text[i] - 'a' + 'A' else text[i])
  }

  /** The rate found at or before `day`, looking back `left` more days, and the cache afterwards. */
  function Search(cache: Cache, fetch: Fetch, pair: string, day: int, left: nat): (Option<real>, Cache)
    decreases left
  {
    var key := Key(pair, day);
    if left == 0 then (None, cache)
    else if key in cache then (Some(cache[key]), cache)
    else if fetch(key).Some? then (fetch(key), cache[key := fetch(key).value])
    else Search(cache, fetch, pair, day - 1, left - 1)
  }

  function Answer(found: Option<real>, pair: string, fallback: real): Lookup {
    match found
    case Some(rate) => Rate(rate)
    case None => if pair != EUR_NOK then NoRateFound else Rate(fallback)
  }

  /** One call: its answer and the cache it leaves. */
  function Call(cache: Cache, fetch: Fetch, pair: string, day: int, fallback: real): (Lookup, Cache) {
    var normalized := Upper(pair);
    if normalized != EUR_NOK && normalized != USD_NOK then (UnsupportedPair, cache)
    else
      var (found, after) := Search(cache, fetch, normalized, day, WINDOW);
      (Answer(found, normalized, fallback), after)
  }

  class FXRateCollector {
    var cache: Cache

    constructor ()
      ensures cache == map[]
    {
      cache := map[];
    }

    method LoadRateForDate(pair: string, day: int) returns (rate: Option<real>)
      ensures rate == if Key(pair, day) in cache then Some(cache[Key(pair, day)]) else None
    {
      rate := if Key(pair, day) in cache then Some(cache[Key(pair, day)]) else None;
    }

    method StoreRate(pair: string, day: int, rate: real)
      modifies this
      ensures cache == old(cache)[Key(pair, day) := rate]
    {
      cache := cache[Key(pair, day) := rate];
    }

    method GetRate(pair: string, targetDay: int, fetch: Fetch, eurNokFallback: real) returns (r: Lookup)
      modifies this
      ensures (r, cache) == Call(old(cache), fetch, pair, targetDay, eurNokFallback)
    {
      var normalizedPair := Upper(pair);
      if normalizedPair != EUR_NOK && normalizedPair != USD_NOK {
        return UnsupportedPair;
      }
      for dayOffset := 0 to WINDOW
        invariant cache == old(cache)
        invariant Search(cache, fetch, normalizedPair, targetDay, WINDOW)
               == Search(cache, fetch, normalizedPair, targetDay - dayOffset, WINDOW - dayOffset)
      {
        var candidateDay := targetDay - dayOffset;
        var cachedRate := LoadRateForDate(normalizedPair, candidateDay);
        if cachedRate.Some? {
          return Rate(cachedRate.value);
        }
        var fetchedRate := fetch(Key(normalizedPair, candidateDay));
        if fetchedRate.None? {
          continue;
        }
        StoreRate(normalizedPair, candidateDay, fetchedRate.value);
        return Rate(fetchedRate.value);
      }
      if normalizedPair != EUR_NOK {
        return NoRateFound;
      }
      return Rate(eurNokFallback);
    }
  }

  // ---------- against a fixed published series ----------

  /** A fetch can fail, but what it brings is what is published. */
  ghost predicate Truthful(fetch: Fetch, published: Cache) {
    forall key :: fetch(key).Some? ==> key in published && fetch(key).value == published[key]
  }

  /** The cache holds only published rates, each under its own date. */
  ghost predicate Sound(cache: Cache, published: Cache) {
    forall key :: key in cache ==> key in published && cache[key] == published[key]
  }

  /** No request for a day of the window fails. */
  ghost predicate Reachable(fetch: Fetch, published: Cache, pair: string, day: int) {
    forall d :: day - WINDOW < d <= day ==>
      fetch(Key(pair, d)) == if Key(pair, d) in published then Some(published[Key(pair, d)]) else None
  }

  /** The latest published rate on or before `day` within `left` days. */
  ghost function Latest(published: Cache, pair: string, day: int, left: nat): Option<real>
    decreases left
  {
    if left == 0 then None
    else if Key(pair, day) in published then Some(published[Key(pair, day)])
    else Latest(published, pair, day - 1, left - 1)
  }

  lemma {:induction false} SearchFindsLatest(
    cache: Cache, fetch: Fetch, published: Cache, pair: string, day: int, left: nat)
    requires Sound(cache, published)
    requires forall d :: day - left < d <= day ==>
               fetch(Key(pair, d)) == if Key(pair, d) in published then Some(published[Key(pair, d)]) else None
    ensures Search(cache, fetch, pair, day, left).0 == Latest(published, pair, day, left)
    decreases left
  {
    if left > 0 {
      assert fetch(Key(pair, day)) == if Key(pair, day) in published then Some(published[Key(pair, day)]) else None;
      if Key(pair, day) !in cache && fetch(Key(pair, day)).None? {
        SearchFindsLatest(cache, fetch, published, pair, day - 1, left - 1);
      }
    }
  }

  /** A call whose requests all succeed answers exactly as an uncached lookup of the published series would. */
  lemma ReachableCallIsUncached(cache: Cache, fetch: Fetch, published: Cache, pair: string, day: int, fallback: real)
    requires Sound(cache, published) && Upper(pair) in {EUR_NOK, USD_NOK}
        && Reachable(fetch, published, Upper(pair), day)
    ensures Call(cache, fetch, pair, day, fallback).0
        == Answer(Latest(published, Upper(pair), day, WINDOW), Upper(pair), fallback)
  {
    hide Upper;
    SearchFindsLatest(cache, fetch, published, Upper(pair), day, WINDOW);
  }

  lemma {:induction false} SearchKeepsSound(
    cache: Cache, fetch: Fetch, published: Cache, pair: string, day: int, left: nat)
    requires Sound(cache, published) && Truthful(fetch, published)
    ensures var (found, after) := Search(cache, fetch, pair, day, left);
            && Sound(after, published)
            && (forall key :: key in cache ==> key in after && after[key] == cache[key])
            && found == Latest(after, pair, day, left)
    decreases left
  {
    if left > 0 && Key(pair, day) !in cache && fetch(Key(pair, day)).None? {
      SearchKeepsSound(cache, fetch, published, pair, day - 1, left - 1);
      StoresOnlyEarlier(cache, fetch, pair, day - 1, left - 1, day);
    }
  }

  lemma {:induction false} StoresOnlyEarlier(cache: Cache, fetch: Fetch, pair: string, day: int, left: nat, later: int)
    requires day < later && Key(pair, later) !in cache
    ensures Key(pair, later) !in Search(cache, fetch, pair, day, left).1
    decreases left
  {
    if left > 0 && Key(pair, day) !in cache && fetch(Key(pair, day)).None? {
      StoresOnlyEarlier(cache, fetch, pair, day - 1, left - 1, later);
    }
  }

  // ---------- histories of calls ----------

  datatype Request = Request(pair: string, day: int, fetch: Fetch)

  ghost function After(calls: seq<Request>): Cache {
    if calls == [] then map[]
    else
      var last := calls[|calls| - 1];
      Call(After(calls[..|calls| - 1]), last.fetch, last.pair, last.day, 0.0).1
  }

  /**
   * Over every history of calls and failed requests the cache holds nothing but published rates under their own date.
   */
  lemma {:induction false} HistoryStaysSound(calls: seq<Request>, published: Cache)
    requires forall i :: 0 <= i < |calls| ==> Truthful(calls[i].fetch, published)
    ensures Sound(After(calls), published)
  {
    if calls != [] {
      var last := calls[|calls| - 1];
      HistoryStaysSound(calls[..|calls| - 1], published);
      SearchKeepsSound(After(calls[..|calls| - 1]), last.fetch, published, Upper(last.pair), last.day, WINDOW);
    }
  }

  /** After any history, a call whose requests succeed answers as if there were no cache. */
  lemma CacheIsTransparent(calls: seq<Request>, published: Cache, pair: string, day: int, fetch: Fetch, fallback: real)
    requires forall i :: 0 <= i < |calls| ==> Truthful(calls[i].fetch, published)
    requires Upper(pair) in {EUR_NOK, USD_NOK} && Reachable(fetch, published, Upper(pair), day)
    ensures Call(After(calls), fetch, pair, day, fallback).0 == Call(map[], fetch, pair, day, fallback).0
         == Answer(Latest(published, Upper(pair), day, WINDOW), Upper(pair), fallback)
  {
    HistoryStaysSound(calls, published);
    ReachableCallIsUncached(After(calls), fetch, published, pair, day, fallback);
    ReachableCallIsUncached(map[], fetch, published, pair, day, fallback);
  }

  lemma {:induction false} SearchAgainOffline(
    cache: Cache, fetch: Fetch, offline: Fetch, pair: string, day: int, left: nat)
    requires forall key :: offline(key) == None
    ensures var (found, after) := Search(cache, fetch, pair, day, left);
            found.Some? ==> Search(after, offline, pair, day, left) == (found, after)
    decreases left
  {
    if left > 0 && Key(pair, day) !in cache && fetch(Key(pair, day)).None? {
      SearchAgainOffline(cache, fetch, offline, pair, day - 1, left - 1);
      StoresOnlyEarlier(cache, fetch, pair, day - 1, left - 1, day);
    }
  }

  /**
   * Once a call has found a rate, the same call answers the same with the bank unreachable, and leaves the cache alone.
   */
  lemma FoundRatesSurviveOutage(cache: Cache, fetch: Fetch, offline: Fetch, pair: string, day: int, fallback: real)
    requires Upper(pair) in {EUR_NOK, USD_NOK} && forall key :: offline(key) == None
    requires Search(cache, fetch, Upper(pair), day, WINDOW).0.Some?
    ensures var (answer, after) := Call(cache, fetch, pair, day, fallback);
            Call(after, offline, pair, day, fallback) == (answer, after)
  {
    hide Upper;
    SearchAgainOffline(cache, fetch, offline, Upper(pair), day, WINDOW);
  }

  // ---------- who gets the fallback ----------

  /** EUR/NOK never fails: without a rate it answers the fallback. USD/NOK answers nothing but a rate it found. */
  lemma FallbackIsForEuros(cache: Cache, fetch: Fetch, pair: string, day: int, fallback: real)
    ensures var answer := Call(cache, fetch, pair, day, fallback).0;
            var found := Search(cache, fetch, Upper(pair), day, WINDOW).0;
            && (answer.UnsupportedPair? <==> Upper(pair) != "EUR/NOK" && Upper(pair) != "USD/NOK")
            && (answer.NoRateFound? <==> Upper(pair) == "USD/NOK" && found == None)
            && (Upper(pair) == "EUR/NOK" && found == None ==> answer == Rate(fallback))
            && (answer.Rate? && !(Upper(pair) == "EUR/NOK" && found == None) ==> found == Some(answer.value))
  {
    hide Search;
    hide Upper;
  }

  /** Of the `left` days up to `day`, `d` is the latest with a published rate for the pair, which is `rate`. */
  ghost predicate IsLatest(published: Cache, pair: string, day: int, left: nat, d: int, rate: real) {
    && day - left < d <= day && Key(pair, d) in published && published[Key(pair, d)] == rate
    && forall later :: d < later <= day ==> Key(pair, later) !in published
  }

  ghost predicate PublishedWithin(published: Cache, pair: string, day: int, left: nat, rate: real) {
    exists d :: IsLatest(published, pair, day, left, d, rate)
  }

  lemma {:induction false} LatestMeans(published: Cache, pair: string, day: int, left: nat)
    ensures forall rate :: PublishedWithin(published, pair, day, left, rate)
              <==> Latest(published, pair, day, left) == Some(rate)
    decreases left
  {
    if left > 0 && Key(pair, day) !in published {
      var prior, fewer := day - 1, left - 1;
      LatestMeans(published, pair, prior, fewer);
      forall rate
        ensures PublishedWithin(published, pair, day, left, rate)
           <==> PublishedWithin(published, pair, prior, fewer, rate)
      {
        if d :| IsLatest(published, pair, day, left, d, rate) {
          assert IsLatest(published, pair, prior, fewer, d, rate);
        }
        if d :| IsLatest(published, pair, prior, fewer, d, rate) {
          assert IsLatest(published, pair, day, left, d, rate);
        }
      }
    } else if left > 0 {
      assert IsLatest(published, pair, day, left, day, published[Key(pair, day)]);
    }
  }

  /**
   * After any history of calls, with the bank reachable: the rate of the latest of the eight days that has one; where
   * none has, the fallback for EUR/NOK and an error for USD/NOK.
   */
  lemma ReachableCallMeans(
    calls: seq<Request>, published: Cache, pair: string, day: int, fetch: Fetch, fallback: real)
    requires forall i :: 0 <= i < |calls| ==> Truthful(calls[i].fetch, published)
    requires Upper(pair) in {"EUR/NOK", "USD/NOK"} && Reachable(fetch, published, Upper(pair), day)
    ensures var answer := Call(After(calls), fetch, pair, day, fallback).0;
            && (forall rate :: PublishedWithin(published, Upper(pair), day, 8, rate) ==> answer == Rate(rate))
            && ((forall rate :: !PublishedWithin(published, Upper(pair), day, 8, rate)) ==>
                  answer == if Upper(pair) == "EUR/NOK" then Rate(fallback) else NoRateFound)
  {
    hide Call;
    hide Upper;
    hide Latest;
    hide PublishedWithin;
    hide Sound;
    hide Truthful;
    HistoryStaysSound(calls, published);
    ReachableCallIsUncached(After(calls), fetch, published, pair, day, fallback);
    LatestMeans(published, Upper(pair), day, WINDOW);
  }

  // ---------- pairs in any case ----------

  lemma UpperMeans(a: string, b: string)
    requires forall i :: 0 <= i < |b| ==> !('a' <= b[i] <= 'z')
    ensures Upper(a) == b
       <==> |a| == |b| && forall i :: 0 <= i < |a| ==> a[i] == b[i] || ('a' <= a[i] <= 'z' && a[i] - 'a' + 'A' == b[i])
  {
    if |a| == |b| && forall i :: 0 <= i < |a| ==> a[i] == b[i] || ('a' <= a[i] <= 'z' && a[i] - 'a' + 'A' == b[i]) {
      forall i | 0 <= i < |a|
        ensures Upper(a)[i] == b[i]
      {
      }
    }
  }
}
