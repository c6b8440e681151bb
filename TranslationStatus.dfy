/** The translation status card: a health level derived from the number of
    cached entries, its badge colour and label key, and the "clean cache"
    button that sweeps the cache and refreshes the statistics. */
module TranslationStatus {
  import opened Wrappers
  import opened TranslationCache
  import opened TranslationService

  /** `getCacheHealth`. */
  function Health(totalEntries: nat): string
  {
    if totalEntries == 0 then "empty"
    else if totalEntries < 10 then "good"
    else if totalEntries < 50 then "moderate"
    else "high"
  }

  /** The position of a level on the scale from empty to high. */
  function Rank(health: string): nat
  {
    if health == "empty" then 0 else if health == "good" then 1 else if health == "moderate" then 2 else 3
  }

  /** `getCacheHealthColor`. */
  function HealthColor(health: string): string
  {
    if health == "empty" then "bg-gray-100 text-gray-600"
    else if health == "good" then "bg-green-100 text-green-700"
    else if health == "moderate" then "bg-yellow-100 text-yellow-700"
    else if health == "high" then "bg-red-100 text-red-700"
    else "bg-gray-100 text-gray-600"
  }

  /** The dictionary key `getCacheHealthText` looks up. */
  function HealthTextKey(health: string): string
  {
    if health in {"empty", "good", "moderate", "high"} then "translation.status.cache.health." + health
    else "translation.status.cache.health.unknown"
  }

  /** The thresholds: 0 entries is empty, 1-9 good, 10-49 moderate, 50 and
      more high. */
  lemma HealthThresholds(n: nat)
    ensures Health(n) == "empty" <==> n == 0
    ensures Health(n) == "good" <==> 1 <= n < 10
    ensures Health(n) == "moderate" <==> 10 <= n < 50
    ensures Health(n) == "high" <==> n >= 50
  {
  }

  /** More entries never mean a healthier level. */
  lemma HealthMonotone(a: nat, b: nat)
    requires a <= b
    ensures Rank(Health(a)) <= Rank(Health(b))
  {
  }

  /** The four levels get four different colours and four different label
      keys; any other value gets the empty level's grey and the `unknown`
      label. */
  lemma HealthPresentation(h: string)
    ensures forall a: nat, b: nat :: Health(a) != Health(b) ==>
              HealthColor(Health(a)) != HealthColor(Health(b)) && HealthTextKey(Health(a)) != HealthTextKey(Health(b))
    ensures h !in {"empty", "good", "moderate", "high"} ==>
              HealthColor(h) == HealthColor("empty") && HealthTextKey(h) == "translation.status.cache.health.unknown"
  {
    assert HealthTextKey("empty") == "translation.status.cache.health.empty";
    assert HealthTextKey("good") == "translation.status.cache.health.good";
    assert HealthTextKey("moderate") == "translation.status.cache.health.moderate";
    assert HealthTextKey("high") == "translation.status.cache.health.high";
  }

  /** The clean button is disabled while a sweep runs or when nothing is
      cached. */
  function CleanDisabled(isCleaning: bool, stats: Stats): bool
  {
    isCleaning || stats.totalEntries == 0
  }

  class StatusPanel {
    const service: Service
    var cacheStats: Stats
    var isCleaning: bool
    /** The time of the last sweep, when there was one. */
    var lastCleanup: Option<nat>
    /** Every value `isCleaning` has been set to, in order. */
    var cleaningFlags: seq<bool>

    /** Mounting reads the statistics once. */
    constructor (service: Service)
      ensures this.service == service
      ensures cacheStats == StatsOf(service.storage)
      ensures !isCleaning && lastCleanup == None && cleaningFlags == []
    {
      this.service := service;
      var stats := service.GetCacheStats();
      cacheStats := stats;
      isCleaning := false;
      lastCleanup := None;
      cleaningFlags := [];
    }

    /** `handleCleanupCache` at time `now`: sweep, then refresh the
        statistics, then record the time; the flag is raised for the sweep
        and lowered after it. */
    method HandleCleanupCache(now: nat)
      modifies this, service
      ensures service.storage == Cleaned(old(service.storage), now)
      ensures service.script == old(service.script) && service.log == old(service.log)
      ensures cacheStats == StatsOf(Cleaned(old(service.storage), now))
      ensures lastCleanup == Some(now)
      ensures cleaningFlags == old(cleaningFlags) + [true, false] && !isCleaning
    {
      isCleaning := true;
      cleaningFlags := cleaningFlags + [true];
      service.CleanupCache(now);
      var stats := service.GetCacheStats();
      cacheStats := stats;
      lastCleanup := Some(now);
      isCleaning := false;
      cleaningFlags := cleaningFlags + [false];
    }
  }
}
