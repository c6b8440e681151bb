/** `LibreTranslationService`: the translation orchestrator. It keeps the
    cache in storage, tries the providers in order and accepts the first
    usable translation, and splits long blog posts before translating them.
    Each provider call takes the next scripted reply (none left: the fetch
    fails) and is recorded in a call log, so the model can say which
    providers were asked and in what order. */
module TranslationService {
  import opened JsStrings
  import opened Seqs
  import opened Wrappers
  import opened CacheKey
  import opened TranslationCache
  import opened Chunking
  import opened Providers

  /** One provider invocation, as recorded in the log. */
  datatype Call = Call(provider: Provider, text: string, targetLang: string, sourceLang: string)

  /** Everything the service reads or changes: the storage, the replies the
      network will give, the calls made so far and the premium API key. */
  datatype State = State(storage: Storage, script: seq<Reply>, log: seq<Call>, premiumKey: string)

  /** A result together with the state it leaves. */
  datatype Step<T> = Step(value: T, state: State)

  /** `LANGUAGE_MAP`: the supported targets and their API codes. */
  function ApiLanguage(lang: string): Option<string>
  {
    if lang == "ko" || lang == "zh" || lang == "en" then Some(lang) else None
  }

  /** The reply the next fetch receives. */
  function NextReply(script: seq<Reply>): Reply
  {
    if script == [] then NetworkError else script[0]
  }

  function Rest(script: seq<Reply>): seq<Reply>
  {
    if script == [] then [] else script[1..]
  }

  /** One provider call: it consumes a reply and is logged. */
  function CallSpec(st: State, p: Provider, text: string, target: string, source: string): Step<Outcome>
  {
    Step(Interpret(p, NextReply(st.script), text),
         st.(script := Rest(st.script), log := st.log + [Call(p, text, target, source)]))
  }

  /** Try the providers in order; stop at the first accepted outcome. */
  function Chain(st: State, ps: seq<Provider>, text: string, target: string, source: string): Step<Option<string>>
    decreases |ps|
  {
    if ps == [] then Step(None, st)
    else
      var c := CallSpec(st, ps[0], text, target, source);
      if Accepts(c.value, text) then Step(Some(c.value.text), c.state)
      else Chain(c.state, ps[1..], text, target, source)
  }

  /** `translateText(text, targetLanguage, sourceLanguage)` at time `now`. */
  function TranslateTextSpec(st: State, text: string, lang: string, source: string, now: nat): Step<string>
  {
    if lang == "en" then Step(text, st)
    else match ApiLanguage(lang)
      case None => Step(text, st)
      case Some(api) =>
        var key := CacheKeyOf(text, lang);
        var rd := ReadCache(st.storage, key, now);
        var st1 := st.(storage := rd.storage);
        if rd.value.Some? && rd.value.value != "" then Step(rd.value.value, st1)
        else
          var c := Chain(st1, ProviderOrder(st.premiumKey), text, api, source);
          match c.value
            case Some(v) => Step(v, c.state.(storage := WriteCache(c.state.storage, key, v, now)))
            case None => Step(text, c.state)
  }

  /** Translating a list of texts one after the other (`Promise.all` over
      `translateText`, each call seeing the cache writes of the earlier ones). */
  function TranslateAllSpec(st: State, texts: seq<string>, lang: string, now: nat): (r: Step<seq<string>>)
    ensures |r.value| == |texts|
  {
    if texts == [] then Step([], st)
    else
      var prev := TranslateAllSpec(st, texts[..|texts| - 1], lang, now);
      var t := TranslateTextSpec(prev.state, texts[|texts| - 1], lang, "auto", now);
      Step(prev.value + [t.value], t.state)
  }

  /** The chunk path of `translateBlogPost`: 500-character chunks, translated
      in order and concatenated with no separator. */
  function ChunkedPostSpec(st: State, content: string, lang: string, now: nat): Step<string>
  {
    var t := TranslateAllSpec(st, ChunksOf(content, 500), lang, now);
    Step(Join(t.value, ""), t.state)
  }

  /** `translateBlogPost`. */
  function BlogPostSpec(st: State, content: string, lang: string, now: nat): Step<string>
  {
    if JsLength(content) > 2000 then LongContentSpec(st, content, lang, now)
    else if JsLength(content) > 500 then
      var direct := TranslateTextSpec(st, content, lang, "auto", now);
      if direct.value != content then direct else ChunkedPostSpec(direct.state, content, lang, now)
    else ChunkedPostSpec(st, content, lang, now)
  }

  /** `p.trim().length > 0`. */
  function KeepParagraph(p: string): bool
  {
    Trim(p) != ""
  }

  /** The non-blank paragraphs of `translateLongContent`, untrimmed. */
  function Paragraphs(content: string): seq<string>
  {
    Filter(SplitParagraphs(content), KeepParagraph)
  }

  /** The atom one paragraph contributes: over 1000 characters it is split
      into 300-character chunks translated and rejoined with spaces,
      otherwise it is translated whole. */
  function AtomSpec(st: State, paragraph: string, lang: string, now: nat): Step<string>
  {
    if JsLength(paragraph) > 1000 then
      var t := TranslateAllSpec(st, ChunksOf(paragraph, 300), lang, now);
      Step(Join(t.value, " "), t.state)
    else TranslateTextSpec(st, paragraph, lang, "auto", now)
  }

  /** The loop of `translateLongContent` over the paragraphs: each is trimmed
      and, when non-empty, contributes one atom. */
  function AtomsSpec(st: State, paragraphs: seq<string>, lang: string, now: nat): Step<seq<string>>
  {
    if paragraphs == [] then Step([], st)
    else
      var prev := AtomsSpec(st, paragraphs[..|paragraphs| - 1], lang, now);
      var p := Trim(paragraphs[|paragraphs| - 1]);
      if p == "" then prev
      else
        var a := AtomSpec(prev.state, p, lang, now);
        Step(prev.value + [a.value], a.state)
  }

  lemma AtomsSpecStep(st: State, ps: seq<string>, i: nat, lang: string, now: nat)
    requires i < |ps|
    ensures AtomsSpec(st, ps[..i + 1], lang, now) ==
            var prev := AtomsSpec(st, ps[..i], lang, now);
            if Trim(ps[i]) == "" then prev
            else
              var a := AtomSpec(prev.state, Trim(ps[i]), lang, now);
              Step(prev.value + [a.value], a.state)
  {
    assert ps[..i + 1][..i] == ps[..i];
  }

  /** `translateLongContent`: the atoms joined by blank lines. */
  function LongContentSpec(st: State, content: string, lang: string, now: nat): Step<string>
  {
    var a := AtomsSpec(st, Paragraphs(content), lang, now);
    Step(Join(a.value, "\n\n"), a.state)
  }

  /** The result shape of `testTranslation`. */
  datatype TestResult = TestResult(success: bool, originalText: string, translatedText: string,
                                   error: Option<string>, methodUsed: string)

  function TestResultOf(text: string, translated: string): TestResult
  {
    var success := translated != text;
    TestResult(success, text, translated,
               if success then None else Some("Translation returned same text"),
               if success then "API" else "Fallback")
  }

  datatype MethodKind = Premium | Free

  /** One row of `getAvailableMethods`. */
  datatype MethodInfo = MethodInfo(name: string, kind: MethodKind, available: bool)

  /** `getAvailableMethods`: Google is available only with a key; the free
      APIs are always reported available. */
  function AvailableMethods(premiumKey: string): seq<MethodInfo>
  {
    [MethodInfo("Google Translate", Premium, premiumKey != "")]
    + Map(FREE_APIS, (p: Provider) => MethodInfo(Name(p), Free, true))
  }

  /** One provider's entry in `checkAPIStatus`. */
  datatype ProviderStatus = ProviderStatus(name: string, available: bool, error: Option<Failure>)

  /** `checkAPIStatus`: Google's entry (or that no key is configured) and one
      entry per free API. */
  datatype ApiStatus = ApiStatus(google: ProviderStatus, googleHasKey: bool, freeApis: seq<ProviderStatus>)

  function StatusOf(name: string, o: Outcome): ProviderStatus
  {
    match o
      case Threw(f) => ProviderStatus(name, false, Some(f))
      case Returned(_) => ProviderStatus(name, true, None)
  }

  /** Probing the free APIs with `'Hello'` into Korean from English, in order. */
  function ProbeFreeSpec(st: State, ps: seq<Provider>): (r: Step<seq<ProviderStatus>>)
    ensures |r.value| == |ps|
  {
    if ps == [] then Step([], st)
    else
      var prev := ProbeFreeSpec(st, ps[..|ps| - 1]);
      var c := CallSpec(prev.state, ps[|ps| - 1], "Hello", "ko", "en");
      Step(prev.value + [StatusOf(Name(ps[|ps| - 1]), c.value)], c.state)
  }

  function CheckApiStatusSpec(st: State): Step<ApiStatus>
  {
    if st.premiumKey != "" then
      var g := CallSpec(st, GoogleTranslate, "Hello", "ko", "en");
      var f := ProbeFreeSpec(g.state, FREE_APIS);
      Step(ApiStatus(StatusOf("Google Translate", g.value), true, f.value), f.state)
    else
      var f := ProbeFreeSpec(st, FREE_APIS);
      Step(ApiStatus(ProviderStatus("Google Translate", false, None), false, f.value), f.state)
  }

  // ---------------------------------------------------------------------
  // The service object
  // ---------------------------------------------------------------------

  class Service {
    var storage: Storage
    var script: seq<Reply>
    var log: seq<Call>
    const premiumKey: string

    function Snapshot(): State
      reads this
    {
      State(storage, script, log, premiumKey)
    }

    constructor (premiumKey: string, storage: Storage, script: seq<Reply>)
      ensures Snapshot() == State(storage, script, [], premiumKey)
    {
      this.premiumKey := premiumKey;
      this.storage := storage;
      this.script := script;
      this.log := [];
    }

    /** A provider request: the next reply, interpreted. */
    method CallProvider(p: Provider, text: string, target: string, source: string) returns (o: Outcome)
      modifies this
      ensures Step(o, Snapshot()) == CallSpec(old(Snapshot()), p, text, target, source)
    {
      var reply := NextReply(script);
      script := Rest(script);
      log := log + [Call(p, text, target, source)];
      o := Interpret(p, reply, text);
    }

    /** `getCachedTranslation`. */
    method GetCachedTranslation(key: string, now: nat) returns (cached: Option<string>)
      modifies this
      ensures Read(cached, storage) == ReadCache(old(storage), key, now)
      ensures script == old(script) && log == old(log)
    {
      cached := None;
      if key in storage {
        match storage[key]
        case Corrupt(_) =>
        case Entry(text, _, expiresAt) =>
          if now > expiresAt {
            storage := storage - {key};
          } else {
            cached := Some(text);
          }
      }
    }

    /** `setCachedTranslation`. */
    method SetCachedTranslation(key: string, text: string, now: nat)
      modifies this
      ensures storage == WriteCache(old(storage), key, text, now)
      ensures script == old(script) && log == old(log)
    {
      storage := storage[key := Entry(text, now, now + CACHE_DURATION)];
    }

    /** `translateText`. */
    method TranslateText(text: string, targetLanguage: string, sourceLanguage: string, now: nat) returns (r: string)
      modifies this
      ensures Step(r, Snapshot()) == TranslateTextSpec(old(Snapshot()), text, targetLanguage, sourceLanguage, now)
    {
      if targetLanguage == "en" {
        return text;
      }
      var apiTargetLang := ApiLanguage(targetLanguage);
      if apiTargetLang.None? {
        return text;
      }
      var api := apiTargetLang.value;
      var digits := HashString(text);
      var cacheKey := KEY_PREFIX + targetLanguage + "_" + digits;
      var cached := GetCachedTranslation(cacheKey, now);
      if cached.Some? && cached.value != "" {
        return cached.value;
      }
      ghost var afterRead := Snapshot();
      var order := ProviderOrder(premiumKey);
      if premiumKey != "" {
        var googleResult := CallProvider(GoogleTranslate, text, api, sourceLanguage);
        assert order[0] == GoogleTranslate && order[1..] == FREE_APIS;
        if Accepts(googleResult, text) {
          SetCachedTranslation(cacheKey, googleResult.text, now);
          return googleResult.text;
        }
      } else {
        assert order == FREE_APIS;
      }
      ghost var beforeFree := Snapshot();
      assert Chain(afterRead, order, text, api, sourceLanguage) == Chain(beforeFree, FREE_APIS, text, api, sourceLanguage);
      for i := 0 to |FREE_APIS|
        invariant Chain(beforeFree, FREE_APIS, text, api, sourceLanguage)
               == Chain(Snapshot(), FREE_APIS[i..], text, api, sourceLanguage)
        invariant storage == afterRead.storage
      {
        assert FREE_APIS[i..][0] == FREE_APIS[i] && FREE_APIS[i..][1..] == FREE_APIS[i + 1..];
        var translatedText := CallProvider(FREE_APIS[i], text, api, sourceLanguage);
        if Accepts(translatedText, text) {
          SetCachedTranslation(cacheKey, translatedText.text, now);
          return translatedText.text;
        }
      }
      r := text;
    }

    /** The chunks translated one after the other. */
    method TranslateAll(texts: seq<string>, lang: string, now: nat) returns (rs: seq<string>)
      modifies this
      ensures Step(rs, Snapshot()) == TranslateAllSpec(old(Snapshot()), texts, lang, now)
    {
      ghost var start := Snapshot();
      rs := [];
      for i := 0 to |texts|
        invariant Step(rs, Snapshot()) == TranslateAllSpec(start, texts[..i], lang, now)
      {
        assert texts[..i + 1][..i] == texts[..i];
        var translated := TranslateText(texts[i], lang, "auto", now);
        rs := rs + [translated];
      }
      assert texts[..|texts|] == texts;
    }

    /** `translateBlogPost`. */
    method TranslateBlogPost(blogContent: string, targetLanguage: string, now: nat) returns (r: string)
      modifies this
      ensures Step(r, Snapshot()) == BlogPostSpec(old(Snapshot()), blogContent, targetLanguage, now)
    {
      if JsLength(blogContent) > 2000 {
        r := TranslateLongContent(blogContent, targetLanguage, now);
        return;
      }
      if JsLength(blogContent) > 500 {
        var directResult := TranslateText(blogContent, targetLanguage, "auto", now);
        if directResult != blogContent {
          return directResult;
        }
      }
      var chunks := SplitTextIntoChunks(blogContent, 500);
      var translatedChunks := TranslateAll(chunks, targetLanguage, now);
      r := Join(translatedChunks, "");
    }

    /** The body of `translateLongContent`'s loop for one trimmed, non-empty
        paragraph. */
    method TranslateParagraph(paragraph: string, targetLanguage: string, now: nat) returns (atom: string)
      modifies this
      ensures Step(atom, Snapshot()) == AtomSpec(old(Snapshot()), paragraph, targetLanguage, now)
    {
      if JsLength(paragraph) > 1000 {
        var sentences := SplitTextIntoChunks(paragraph, 300);
        var translatedSentences := TranslateAll(sentences, targetLanguage, now);
        atom := Join(translatedSentences, " ");
      } else {
        atom := TranslateText(paragraph, targetLanguage, "auto", now);
      }
    }

    /** `translateLongContent`. */
    method TranslateLongContent(content: string, targetLanguage: string, now: nat) returns (r: string)
      modifies this
      ensures Step(r, Snapshot()) == LongContentSpec(old(Snapshot()), content, targetLanguage, now)
    {
      ghost var start := Snapshot();
      var paragraphs := Filter(SplitParagraphs(content), KeepParagraph);
      var translatedParagraphs := [];
      for i := 0 to |paragraphs|
        invariant Step(translatedParagraphs, Snapshot()) == AtomsSpec(start, paragraphs[..i], targetLanguage, now)
      {
        AtomsSpecStep(start, paragraphs, i, targetLanguage, now);
        var paragraph := Trim(paragraphs[i]);
        if paragraph != "" {
          var atom := TranslateParagraph(paragraph, targetLanguage, now);
          translatedParagraphs := translatedParagraphs + [atom];
        }
      }
      assert paragraphs[..|paragraphs|] == paragraphs;
      r := Join(translatedParagraphs, "\n\n");
    }

    /** `cleanupCache`: one pass over a snapshot of the cache keys. */
    method CleanupCache(now: nat)
      modifies this
      ensures storage == Cleaned(old(storage), now)
      ensures script == old(script) && log == old(log)
    {
      ghost var s0 := storage;
      var translationKeys := TranslationKeys(storage);
      var remaining := translationKeys;
      while remaining != {}
        invariant remaining <= translationKeys
        invariant forall k :: k in storage <==>
                    k in s0 && !(k in translationKeys && k !in remaining && Evicted(k, s0[k], now))
        invariant forall k :: k in storage ==> storage[k] == s0[k]
        invariant script == old(script) && log == old(log)
        decreases remaining
      {
        var key :| key in remaining;
        match storage[key] {
          case Corrupt(raw) =>
            if raw != "" {
              storage := storage - {key};
            }
          case Entry(_, _, expiresAt) =>
            if now > expiresAt {
              storage := storage - {key};
            }
        }
        remaining := remaining - {key};
      }
      assert storage == Cleaned(s0, now);
    }

    /** `getCacheStats`. */
    method GetCacheStats() returns (stats: Stats)
      ensures stats == StatsOf(storage)
    {
      var translationKeys := TranslationKeys(storage);
      var totalSize := 0;
      var remaining := translationKeys;
      while remaining != {}
        invariant remaining <= translationKeys
        invariant totalSize + SizeOf(storage, remaining) == SizeOf(storage, translationKeys)
        decreases remaining
      {
        var key :| key in remaining;
        SizeOfRemove(storage, remaining, key);
        var cached := Raw(storage[key]);
        if cached != "" {
          totalSize := totalSize + JsLength(cached);
        }
        remaining := remaining - {key};
      }
      stats := Stats(|translationKeys|, totalSize);
    }

    /** `testTranslation`. */
    method TestTranslation(text: string, targetLanguage: string, now: nat) returns (result: TestResult)
      modifies this
      ensures var t := TranslateTextSpec(old(Snapshot()), text, targetLanguage, "auto", now);
              result == TestResultOf(text, t.value) && Snapshot() == t.state
    {
      var translatedText := TranslateText(text, targetLanguage, "auto", now);
      result := TestResultOf(text, translatedText);
    }

    /** `getAvailableMethods`. */
    function GetAvailableMethods(): seq<MethodInfo>
    {
      AvailableMethods(premiumKey)
    }

    /** `checkAPIStatus`. */
    method CheckApiStatus() returns (status: ApiStatus)
      modifies this
      ensures Step(status, Snapshot()) == CheckApiStatusSpec(old(Snapshot()))
    {
      var google := ProviderStatus("Google Translate", false, None);
      var hasKey := premiumKey != "";
      if hasKey {
        var o := CallProvider(GoogleTranslate, "Hello", "ko", "en");
        google := StatusOf("Google Translate", o);
      }
      var freeApis := ProbeFreeApis();
      status := ApiStatus(google, hasKey, freeApis);
    }

    /** The loop of `checkAPIStatus` over the free APIs. */
    method ProbeFreeApis() returns (freeApis: seq<ProviderStatus>)
      modifies this
      ensures Step(freeApis, Snapshot()) == ProbeFreeSpec(old(Snapshot()), FREE_APIS)
    {
      freeApis := [];
      var apis := FREE_APIS;
      for i := 0 to |apis|
        invariant Step(freeApis, Snapshot()) == ProbeFreeSpec(old(Snapshot()), apis[..i])
      {
        assert apis[..i + 1][..i] == apis[..i];
        var o := CallProvider(apis[i], "Hello", "ko", "en");
        freeApis := freeApis + [StatusOf(Name(apis[i]), o)];
      }
      assert apis[..|apis|] == apis;
    }
  }
}
