/** The language session: the current language, the static dictionary lookup
    `t(key)` that falls back to the key, and the dynamic translation of
    free text that goes through the translation service and raises
    `isTranslating` around the call. */
module LanguageSession {
  import opened Wrappers
  import opened TranslationCache
  import opened TranslationService
  import opened TranslationLaws

  datatype Language = En | Ko | Zh

  /** The code the session hands to the translation service. */
  function Code(l: Language): string
  {
    match l
      case En => "en"
      case Ko => "ko"
      case Zh => "zh"
  }

  /** The static dictionary: one table of entries per language. Its contents
      are not part of the model. */
  type Dictionary = Language -> map<string, string>

  /** `translations[language][key] || key`. */
  function Lookup(dict: Dictionary, lang: Language, key: string): string
  {
    var table := dict(lang);
    if key in table && table[key] != "" then table[key] else key
  }

  /** `translateDynamicContent(content)` in language `lang` against service
      state `st` at time `now`: English is returned as is, any other
      language goes through `translateText` from an automatically detected
      source. */
  function DynamicSpec(st: State, lang: Language, content: string, now: nat): Step<string>
  {
    if lang == En then Step(content, st)
    else TranslateTextSpec(st, content, Code(lang), "auto", now)
  }

  /** `t(key)` yields the entry when there is a non-empty one and the key
      itself otherwise; so it never yields "" for a non-empty key. */
  lemma LookupFallback(dict: Dictionary, lang: Language, key: string)
    ensures key in dict(lang) && dict(lang)[key] != "" ==> Lookup(dict, lang, key) == dict(lang)[key]
    ensures key !in dict(lang) || dict(lang)[key] == "" ==> Lookup(dict, lang, key) == key
    ensures key != "" ==> Lookup(dict, lang, key) != ""
  {
  }

  /** Changing the dictionary at other keys, or at this key in other
      languages, does not change what `t(key)` shows. */
  lemma LookupIsLocal(d1: Dictionary, d2: Dictionary, lang: Language, key: string)
    requires (key in d1(lang)) == (key in d2(lang))
    requires key in d1(lang) ==> d1(lang)[key] == d2(lang)[key]
    ensures Lookup(d1, lang, key) == Lookup(d2, lang, key)
  {
  }

  /** English content is never sent to the service; content in the two
      other languages is, under their codes. */
  lemma DynamicRouting(st: State, lang: Language, content: string, now: nat)
    ensures lang == En ==> DynamicSpec(st, lang, content, now) == Step(content, st)
    ensures lang != En ==> Code(lang) in {"ko", "zh"}
    ensures lang != En ==> DynamicSpec(st, lang, content, now) == TranslateTextSpec(st, content, Code(lang), "auto", now)
  {
  }

  /** Dynamic translation never turns non-empty content into "", and with
      no provider reachable and nothing cached it gives the content back. */
  lemma DynamicKeepsContent(st: State, lang: Language, content: string, now: nat)
    ensures content != "" ==> DynamicSpec(st, lang, content, now).value != ""
    ensures Offline(st) ==> DynamicSpec(st, lang, content, now).value == content
    ensures Offline(st) ==> Offline(DynamicSpec(st, lang, content, now).state)
  {
    if lang != En {
      TranslateTextNonEmpty(st, content, Code(lang), "auto", now);
      if Offline(st) {
        OfflineTranslateText(st, content, Code(lang), "auto", now);
      }
    }
  }

  class Session {
    const service: Service
    const dictionary: Dictionary
    var language: Language
    var isTranslating: bool
    /** Every value `isTranslating` has been set to, in order. */
    var translatingFlags: seq<bool>

    /** The session starts in English and not translating. */
    constructor (service: Service, dictionary: Dictionary)
      ensures this.service == service && this.dictionary == dictionary
      ensures language == En && !isTranslating && translatingFlags == []
    {
      this.service := service;
      this.dictionary := dictionary;
      language := En;
      isTranslating := false;
      translatingFlags := [];
    }

    /** The cache sweep the provider runs once when it mounts. */
    method Mount(now: nat)
      modifies service
      ensures service.storage == Cleaned(old(service.storage), now)
      ensures service.script == old(service.script) && service.log == old(service.log)
    {
      service.CleanupCache(now);
    }

    /** `setLanguage`. */
    method SetLanguage(l: Language)
      modifies this
      ensures language == l
      ensures isTranslating == old(isTranslating) && translatingFlags == old(translatingFlags)
    {
      language := l;
    }

    /** `translateDynamicContent(content)`. The service never throws, so
        the fallback to the original content on an error is not reachable;
        the flag is lowered when the call returns. */
    method TranslateDynamicContent(content: string, now: nat) returns (r: string)
      modifies this, service
      ensures language == old(language)
      ensures Step(r, service.Snapshot()) == DynamicSpec(old(service.Snapshot()), old(language), content, now)
      ensures old(language) == En ==> isTranslating == old(isTranslating) && translatingFlags == old(translatingFlags)
      ensures old(language) != En ==> !isTranslating && translatingFlags == old(translatingFlags) + [true, false]
    {
      if language == En {
        return content;
      }
      isTranslating := true;
      translatingFlags := translatingFlags + [true];
      r := service.TranslateText(content, Code(language), "auto", now);
      isTranslating := false;
      translatingFlags := translatingFlags + [false];
    }

    /** `t(key, dynamicContent)`: non-empty dynamic content is translated,
        anything else is looked up in the dictionary. */
    method T(key: string, dynamicContent: Option<string>, now: nat) returns (r: string)
      modifies this, service
      ensures language == old(language)
      ensures dynamicContent.Some? && dynamicContent.value != "" ==>
                Step(r, service.Snapshot()) == DynamicSpec(old(service.Snapshot()), old(language), dynamicContent.value, now)
      ensures !(dynamicContent.Some? && dynamicContent.value != "") ==>
                r == Lookup(dictionary, language, key) && service.Snapshot() == old(service.Snapshot()) &&
                isTranslating == old(isTranslating) && translatingFlags == old(translatingFlags)
    {
      if dynamicContent.Some? && dynamicContent.value != "" {
        r := TranslateDynamicContent(dynamicContent.value, now);
      } else {
        r := Lookup(dictionary, language, key);
      }
    }
  }
}
