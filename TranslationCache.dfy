/** The translation cache kept in `localStorage`: entries that expire 30 days
    after they are written, a read that evicts an expired entry, an expiry
    sweep over the `translation_` keys, and the size statistics. Storage is
    a map from keys to stored slots; the clock is an explicit `now` in
    milliseconds. */
module TranslationCache {
  import opened JsStrings
  import opened Wrappers
  import opened Seqs
  import CacheKey

  /** `CACHE_DURATION`: 30 days in milliseconds. */
  const CACHE_DURATION: nat := 30 * 24 * 60 * 60 * 1000

  /** What a storage key holds: a well-formed cache entry, or a string that
      `JSON.parse` rejects (the empty string among them). */
  datatype Slot =
    | Entry(text: string, timestamp: nat, expiresAt: nat)
    | Corrupt(raw: string)

  type Storage = map<string, Slot>

  /** The result of a cache read and the storage it leaves behind. */
  datatype Read = Read(value: Option<string>, storage: Storage)

  /** `getCachedTranslation`: a missing key, an empty stored string and an
      unparsable one are misses that leave storage alone; an entry whose
      `expiresAt` is in the past is removed and reported as a miss. */
  function ReadCache(s: Storage, key: string, now: nat): (r: Read)
    ensures r.value.Some? <==> key in s && s[key].Entry? && now <= s[key].expiresAt
    ensures r.value.Some? ==> r.value.value == s[key].text
    ensures r.storage == s || (key in s && s[key].Entry? && now > s[key].expiresAt && r.storage == s - {key})
  {
    if key !in s then Read(None, s)
    else match s[key]
      case Corrupt(_) => Read(None, s)
      case Entry(text, _, expiresAt) =>
        if now > expiresAt then Read(None, s - {key}) else Read(Some(text), s)
  }

  /** `setCachedTranslation`: both timestamps come from the same clock reading. */
  function WriteCache(s: Storage, key: string, text: string, now: nat): (r: Storage)
    ensures r.Keys == s.Keys + {key}
    ensures r[key] == Entry(text, now, now + CACHE_DURATION)
    ensures forall k :: k in s && k != key ==> r[k] == s[k]
  {
    s[key := Entry(text, now, now + CACHE_DURATION)]
  }

  /** A written entry is served for exactly 30 days, and evicted by the
      first read after that. */
  lemma ReadAfterWrite(s: Storage, key: string, text: string, now: nat, later: nat)
    ensures later <= now + CACHE_DURATION ==>
            ReadCache(WriteCache(s, key, text, now), key, later) == Read(Some(text), WriteCache(s, key, text, now))
    ensures later > now + CACHE_DURATION ==>
            ReadCache(WriteCache(s, key, text, now), key, later) == Read(None, s - {key})
  {
    if later > now + CACHE_DURATION {
      assert WriteCache(s, key, text, now) - {key} == s - {key};
    }
  }

  /** Reading another key neither sees nor touches the written entry. */
  lemma WriteIsolated(s: Storage, key: string, other: string, text: string, now: nat, later: nat)
    requires other != key
    ensures ReadCache(WriteCache(s, key, text, now), other, later).value == ReadCache(s, other, later).value
  {
  }

  // ---------------------------------------------------------------------
  // cleanupCache
  // ---------------------------------------------------------------------

  predicate IsTranslationKey(key: string)
  {
    StartsWith(key, CacheKey.KEY_PREFIX)
  }

  /** The sweep removes a translation key whose stored string is non-empty
      and either unparsable or past its expiry; an empty stored string is
      skipped. */
  predicate Evicted(key: string, slot: Slot, now: nat)
  {
    IsTranslationKey(key) &&
    match slot
      case Corrupt(raw) => raw != ""
      case Entry(_, _, expiresAt) => now > expiresAt
  }

  /** `cleanupCache`: the storage after the sweep. */
  function Cleaned(s: Storage, now: nat): (r: Storage)
    ensures r.Keys <= s.Keys
    ensures forall k :: k in r ==> r[k] == s[k]
    ensures forall k :: k in s && !IsTranslationKey(k) ==> k in r
  {
    map k | k in s && !Evicted(k, s[k], now) :: s[k]
  }

  /** The sweep never touches a key outside the cache. */
  lemma CleanupKeepsOtherKeys(s: Storage, now: nat)
    ensures forall k :: k in s && !IsTranslationKey(k) ==> k in Cleaned(s, now) && Cleaned(s, now)[k] == s[k]
  {
  }

  /** After the sweep every cache key holds a live entry or the empty string. */
  lemma CleanupLeavesOnlyLive(s: Storage, now: nat)
    ensures forall k :: k in Cleaned(s, now) && IsTranslationKey(k) ==>
              (Cleaned(s, now)[k].Entry? && now <= Cleaned(s, now)[k].expiresAt) || Cleaned(s, now)[k] == Corrupt("")
  {
  }

  /** Sweeping twice at the same time removes nothing more. */
  lemma CleanupIdempotent(s: Storage, now: nat)
    ensures Cleaned(Cleaned(s, now), now) == Cleaned(s, now)
  {
  }

  /** The sweep is invisible to readers at the same time: every key reads
      the same value before and after it. */
  lemma CleanupPreservesReads(s: Storage, now: nat, key: string)
    ensures ReadCache(Cleaned(s, now), key, now).value == ReadCache(s, key, now).value
  {
  }

  /** A later sweep keeps no more keys than an earlier one. */
  lemma CleanupMonotone(s: Storage, now: nat, later: nat)
    requires now <= later
    ensures Cleaned(s, later).Keys <= Cleaned(s, now).Keys
  {
  }

  // ---------------------------------------------------------------------
  // getCacheStats
  // ---------------------------------------------------------------------

  /** The four hexadecimal digits of a control character's `\u` escape. */
  function ControlEscape(c: char): string
    requires (c as int) < 0x20
  {
    var v := c as int;
    "\\u00" + [Digit(v / 16), Digit(v % 16)]
  }

  /** How `JSON.stringify` writes one character inside a string literal. */
  function JsonEscapeChar(c: char): string
  {
    if c == '"' then "\\\""
    else if c == '\\' then "\\\\"
    else if c as int == 0x08 then "\\b"
    else if c as int == 0x0C then "\\f"
    else if c == '\n' then "\\n"
    else if c == '\r' then "\\r"
    else if c == '\t' then "\\t"
    else if (c as int) < 0x20 then ControlEscape(c)
    else [c]
  }

  function JsonEscape(s: string): string
  {
    if s == [] then "" else JsonEscapeChar(s[0]) + JsonEscape(s[1..])
  }

  /** `JSON.stringify` of a string. */
  function JsonQuote(s: string): string
  {
    "\"" + JsonEscape(s) + "\""
  }

  /** The string stored under a key: `JSON.stringify(cacheData)` for an entry. */
  function Raw(slot: Slot): string
  {
    match slot
      case Entry(text, timestamp, expiresAt) =>
        "{\"text\":" + JsonQuote(text) + ",\"timestamp\":" + Decimal(timestamp)
        + ",\"expiresAt\":" + Decimal(expiresAt) + "}"
      case Corrupt(raw) => raw
  }

  function TranslationKeys(s: Storage): (r: set<string>)
    ensures r <= s.Keys
  {
    set k | k in s && IsTranslationKey(k)
  }

  /** The total `length` of the strings stored under `keys`. */
  ghost function SizeOf(s: Storage, keys: set<string>): nat
    requires keys <= s.Keys
  {
    if keys == {} then 0
    else
      var k :| k in keys;
      JsLength(Raw(s[k])) + SizeOf(s, keys - {k})
  }

  datatype Stats = Stats(totalEntries: nat, totalSize: nat)

  /** `getCacheStats`: the number of cache keys and the total length of
      what they hold. */
  ghost function StatsOf(s: Storage): Stats
  {
    Stats(|TranslationKeys(s)|, SizeOf(s, TranslationKeys(s)))
  }

  /** The size can be summed starting from any key. */
  lemma SizeOfRemove(s: Storage, keys: set<string>, k: string)
    requires keys <= s.Keys && k in keys
    ensures SizeOf(s, keys) == JsLength(Raw(s[k])) + SizeOf(s, keys - {k})
    decreases keys
  {
    var j :| j in keys && SizeOf(s, keys) == JsLength(Raw(s[j])) + SizeOf(s, keys - {j});
    if j != k {
      SizeOfRemove(s, keys - {j}, k);
      SizeOfRemove(s, keys - {k}, j);
      assert keys - {j} - {k} == keys - {k} - {j};
    }
  }

  /** Fewer keys holding the same strings never add up to more. */
  lemma {:induction false} SizeOfSubset(s1: Storage, k1: set<string>, s2: Storage, k2: set<string>)
    requires k1 <= k2 && k1 <= s1.Keys && k2 <= s2.Keys
    requires forall k :: k in k1 ==> s1[k] == s2[k]
    ensures SizeOf(s1, k1) <= SizeOf(s2, k2)
    decreases k2
  {
    if k2 != {} {
      var j :| j in k2;
      SizeOfRemove(s2, k2, j);
      if j in k1 {
        SizeOfRemove(s1, k1, j);
        SizeOfSubset(s1, k1 - {j}, s2, k2 - {j});
      } else {
        SizeOfSubset(s1, k1, s2, k2 - {j});
      }
    }
  }

  /** The sweep never makes the cache look bigger. */
  lemma CleanupShrinksStats(s: Storage, now: nat)
    ensures StatsOf(Cleaned(s, now)).totalEntries <= StatsOf(s).totalEntries
    ensures StatsOf(Cleaned(s, now)).totalSize <= StatsOf(s).totalSize
  {
    var c := Cleaned(s, now);
    CleanupKeptKeys(s, now);
    SubsetCard(TranslationKeys(c), TranslationKeys(s));
    SizeOfSubset(c, TranslationKeys(c), s, TranslationKeys(s));
  }

  /** The cache keys left by the sweep are cache keys from before it, with
      the same contents. */
  lemma CleanupKeptKeys(s: Storage, now: nat)
    ensures TranslationKeys(Cleaned(s, now)) <= TranslationKeys(s)
    ensures forall k :: k in TranslationKeys(Cleaned(s, now)) ==> Cleaned(s, now)[k] == s[k]
  {
  }

  /** Every entry takes room: its stored JSON is longer than its text. */
  lemma EntrySize(text: string, timestamp: nat, expiresAt: nat)
    ensures JsLength(Raw(Entry(text, timestamp, expiresAt))) > JsLength(JsonEscape(text))
  {
    var quoted := JsonQuote(text);
    var rest := ",\"timestamp\":" + Decimal(timestamp) + ",\"expiresAt\":" + Decimal(expiresAt) + "}";
    assert Raw(Entry(text, timestamp, expiresAt)) == "{\"text\":" + quoted + rest;
    JsLengthAppend("{\"text\":" + quoted, rest);
    JsLengthAppend("{\"text\":", quoted);
    JsLengthAppend("\"" + JsonEscape(text), "\"");
    JsLengthAppend("\"", JsonEscape(text));
  }
}
