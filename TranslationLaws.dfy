/** Properties of the translation service: which providers a translation
    asks and what it keeps, how the cache makes a repeated request free, and
    what every entry point returns when no provider can be reached. */
module TranslationLaws {
  import opened JsStrings
  import opened Seqs
  import opened Wrappers
  import opened CacheKey
  import opened TranslationCache
  import opened Chunking
  import opened Providers
  import opened TranslationService

  // ---------------------------------------------------------------------
  // The provider chain, by index
  // ---------------------------------------------------------------------

  /** The reply the `k`-th fetch from now receives. */
  function ReplyAt(script: seq<Reply>, k: nat): Reply
  {
    if k < |script| then script[k] else NetworkError
  }

  /** The replies still scripted after `n` fetches. */
  function Drop(script: seq<Reply>, n: nat): seq<Reply>
  {
    if n >= |script| then [] else script[n..]
  }

  /** What the `k`-th provider of the list would do if asked. */
  function OutcomeAt(ps: seq<Provider>, script: seq<Reply>, text: string, k: nat): Outcome
    requires k < |ps|
  {
    Interpret(ps[k], ReplyAt(script, k), text)
  }

  /** The first provider from index `i` on whose outcome is accepted, or
      `|ps|` when there is none. */
  function FirstAcceptedFrom(ps: seq<Provider>, script: seq<Reply>, text: string, i: nat): (n: nat)
    requires i <= |ps|
    ensures i <= n <= |ps|
    ensures forall j :: i <= j < n ==> !Accepts(OutcomeAt(ps, script, text, j), text)
    ensures n < |ps| ==> Accepts(OutcomeAt(ps, script, text, n), text)
    decreases |ps| - i
  {
    if i == |ps| then i
    else if Accepts(OutcomeAt(ps, script, text, i), text) then i
    else FirstAcceptedFrom(ps, script, text, i + 1)
  }

  function FirstAccepted(ps: seq<Provider>, script: seq<Reply>, text: string): (n: nat)
    ensures n <= |ps|
    ensures forall j :: 0 <= j < n ==> !Accepts(OutcomeAt(ps, script, text, j), text)
    ensures n < |ps| ==> Accepts(OutcomeAt(ps, script, text, n), text)
  {
    FirstAcceptedFrom(ps, script, text, 0)
  }

  /** How many providers a chain asks: up to and including the first that
      is accepted. */
  function CallCount(ps: seq<Provider>, script: seq<Reply>, text: string): (c: nat)
    ensures c <= |ps|
  {
    var n := FirstAccepted(ps, script, text);
    if n < |ps| then n + 1 else |ps|
  }

  /** The log entries for asking each of `ps` in turn. */
  function CallsFor(ps: seq<Provider>, text: string, target: string, source: string): (r: seq<Call>)
    ensures |r| == |ps|
  {
    seq(|ps|, k requires 0 <= k < |ps| => Call(ps[k], text, target, source))
  }

  /** Searching from `i + 1` is searching the tail from `i`, one fetch later. */
  lemma {:induction false} FirstAcceptedFromShift(ps: seq<Provider>, script: seq<Reply>, text: string, i: nat)
    requires ps != [] && i <= |ps| - 1
    ensures FirstAcceptedFrom(ps, script, text, i + 1) == 1 + FirstAcceptedFrom(ps[1..], Rest(script), text, i)
    decreases |ps| - i
  {
    if i + 1 < |ps| {
      assert ReplyAt(Rest(script), i) == ReplyAt(script, i + 1);
      assert OutcomeAt(ps[1..], Rest(script), text, i) == OutcomeAt(ps, script, text, i + 1);
      FirstAcceptedFromShift(ps, script, text, i + 1);
    }
  }

  /** The least accepted index is 0 when the first provider is accepted,
      and one past the tail's otherwise. */
  lemma FirstAcceptedUnfold(ps: seq<Provider>, script: seq<Reply>, text: string)
    requires ps != []
    ensures Accepts(OutcomeAt(ps, script, text, 0), text) ==> FirstAccepted(ps, script, text) == 0
    ensures !Accepts(OutcomeAt(ps, script, text, 0), text) ==>
              FirstAccepted(ps, script, text) == 1 + FirstAccepted(ps[1..], Rest(script), text)
  {
    FirstAcceptedFromShift(ps, script, text, 0);
  }

  /** Reference definition of the chain: it asks the providers in order up
      to and including the first accepted one, and no provider after it; it
      returns that provider's text, or nothing when none is accepted; it
      never touches the storage. */
  lemma {:induction false} ChainFirstAccepted(st: State, ps: seq<Provider>, text: string, target: string, source: string)
    ensures var n := FirstAccepted(ps, st.script, text);
            var calls := CallCount(ps, st.script, text);
            Chain(st, ps, text, target, source) ==
              Step(if n < |ps| then Some(OutcomeAt(ps, st.script, text, n).text) else None,
                   st.(script := Drop(st.script, calls), log := st.log + CallsFor(ps[..calls], text, target, source)))
    decreases |ps|
  {
    if ps == [] {
      assert Drop(st.script, 0) == st.script;
      assert st.log + CallsFor(ps[..0], text, target, source) == st.log;
    } else {
      FirstAcceptedUnfold(ps, st.script, text);
      var c := CallSpec(st, ps[0], text, target, source);
      assert c.value == OutcomeAt(ps, st.script, text, 0);
      if Accepts(c.value, text) {
        assert Drop(st.script, 1) == Rest(st.script);
        assert CallsFor(ps[..1], text, target, source) == [Call(ps[0], text, target, source)];
      } else {
        var tail := ps[1..];
        ChainFirstAccepted(c.state, tail, text, target, source);
        var m := FirstAccepted(tail, c.state.script, text);
        var calls := CallCount(tail, c.state.script, text);
        if m < |tail| {
          OutcomeAtTail(ps, st.script, text, m);
        }
        DropRest(st.script, calls);
        var call := Call(ps[0], text, target, source);
        CallsForCons(ps, calls, text, target, source);
        AppendAssoc(st.log, [call], CallsFor(tail[..calls], text, target, source));
      }
    }
  }

  lemma OutcomeAtTail(ps: seq<Provider>, script: seq<Reply>, text: string, m: nat)
    requires m + 1 < |ps|
    ensures OutcomeAt(ps[1..], Rest(script), text, m) == OutcomeAt(ps, script, text, m + 1)
  {
    ReplyAtRest(script, m);
  }

  lemma DropRest(script: seq<Reply>, n: nat)
    ensures Drop(Rest(script), n) == Drop(script, n + 1)
  {
  }

  lemma CallsForCons(ps: seq<Provider>, n: nat, text: string, target: string, source: string)
    requires n + 1 <= |ps|
    ensures [Call(ps[0], text, target, source)] + CallsFor(ps[1..][..n], text, target, source)
            == CallsFor(ps[..n + 1], text, target, source)
  {
  }

  lemma ReplyAtRest(script: seq<Reply>, i: nat)
    ensures ReplyAt(Rest(script), i) == ReplyAt(script, i + 1)
  {
  }

  lemma CallsForPrepend(p: Provider, ps: seq<Provider>, text: string, target: string, source: string)
    ensures [Call(p, text, target, source)] + CallsFor(ps, text, target, source)
            == CallsFor([p] + ps, text, target, source)
  {
  }

  /** Without replies every provider throws: the chain yields nothing and
      asks every provider once. */
  lemma {:induction false} ChainOffline(st: State, ps: seq<Provider>, text: string, target: string, source: string)
    requires st.script == []
    ensures Chain(st, ps, text, target, source) ==
              Step(None, st.(log := st.log + CallsFor(ps, text, target, source)))
    decreases |ps|
  {
    if ps == [] {
      assert st.log + CallsFor(ps, text, target, source) == st.log;
    } else {
      var call := Call(ps[0], text, target, source);
      var c := CallSpec(st, ps[0], text, target, source);
      assert !Accepts(c.value, text);
      assert Chain(st, ps, text, target, source) == Chain(c.state, ps[1..], text, target, source);
      ChainOffline(c.state, ps[1..], text, target, source);
      assert [call] + CallsFor(ps[1..], text, target, source) == CallsFor(ps, text, target, source);
      AppendAssoc(st.log, [call], CallsFor(ps[1..], text, target, source));
    }
  }

  // ---------------------------------------------------------------------
  // translateText
  // ---------------------------------------------------------------------

  /** The key a translation is stored under is one the sweep looks at. */
  lemma CacheKeyIsTranslationKey(text: string, lang: string)
    ensures IsTranslationKey(CacheKeyOf(text, lang))
  {
    assert CacheKeyOf(text, lang)[..|KEY_PREFIX|] == KEY_PREFIX;
  }

  /** English is returned as is, and so is any unsupported target; neither
      reads the cache or asks a provider. */
  lemma NoTranslationNeeded(st: State, text: string, lang: string, source: string, now: nat)
    requires lang == "en" || lang !in {"ko", "zh"}
    ensures TranslateTextSpec(st, text, lang, source, now) == Step(text, st)
  {
  }

  /** A live, non-empty cached translation is served without asking any
      provider and without changing anything. */
  lemma CacheHitServed(st: State, text: string, lang: string, source: string, now: nat)
    requires lang in {"ko", "zh"}
    requires var key := CacheKeyOf(text, lang);
             key in st.storage && st.storage[key].Entry? && now <= st.storage[key].expiresAt &&
             st.storage[key].text != ""
    ensures TranslateTextSpec(st, text, lang, source, now) == Step(st.storage[CacheKeyOf(text, lang)].text, st)
  {
  }

  /** On a cache miss: the providers of `ProviderOrder` are asked in order
      up to the first accepted one; its text is returned and cached for 30
      days under the text's key; when none is accepted the input comes back
      and nothing is written. */
  lemma TranslateTextMiss(st: State, text: string, lang: string, source: string, now: nat)
    requires lang in {"ko", "zh"}
    requires var rd := ReadCache(st.storage, CacheKeyOf(text, lang), now);
             !(rd.value.Some? && rd.value.value != "")
    ensures var key := CacheKeyOf(text, lang);
            var s1 := ReadCache(st.storage, key, now).storage;
            var ps := ProviderOrder(st.premiumKey);
            var n := FirstAccepted(ps, st.script, text);
            var calls := CallCount(ps, st.script, text);
            var r := TranslateTextSpec(st, text, lang, source, now);
            r.state.script == Drop(st.script, calls) &&
            r.state.log == st.log + CallsFor(ps[..calls], text, lang, source) &&
            r.state.premiumKey == st.premiumKey &&
            (n < |ps| ==> r.value == OutcomeAt(ps, st.script, text, n).text &&
                          r.state.storage == WriteCache(s1, key, r.value, now)) &&
            (n == |ps| ==> r.value == text && r.state.storage == s1)
  {
    var key := CacheKeyOf(text, lang);
    var rd := ReadCache(st.storage, key, now);
    ChainFirstAccepted(st.(storage := rd.storage), ProviderOrder(st.premiumKey), text, lang, source);
  }

  /** A translation is empty only when its input is. */
  lemma TranslateTextNonEmpty(st: State, text: string, lang: string, source: string, now: nat)
    ensures TranslateTextSpec(st, text, lang, source, now).value == "" ==> text == ""
  {
    if lang in {"ko", "zh"} {
      var rd := ReadCache(st.storage, CacheKeyOf(text, lang), now);
      if !(rd.value.Some? && rd.value.value != "") {
        TranslateTextMiss(st, text, lang, source, now);
      }
    }
  }

  /** A request touches the storage only under its own key. */
  lemma TranslateTextTouchesOnlyItsKey(st: State, text: string, lang: string, source: string, now: nat)
    ensures var r := TranslateTextSpec(st, text, lang, source, now);
            forall k :: k != CacheKeyOf(text, lang) ==>
              (k in r.state.storage <==> k in st.storage) &&
              (k in st.storage ==> r.state.storage[k] == st.storage[k])
  {
    if lang in {"ko", "zh"} {
      var rd := ReadCache(st.storage, CacheKeyOf(text, lang), now);
      if !(rd.value.Some? && rd.value.value != "") {
        TranslateTextMiss(st, text, lang, source, now);
      }
    }
  }

  /** Asking again at the same time for a text that was translated serves
      the same translation from the cache and asks no provider. */
  lemma RepeatIsServedFromCache(st: State, text: string, lang: string, source: string, source2: string, now: nat)
    requires TranslateTextSpec(st, text, lang, source, now).value != text
    ensures var r := TranslateTextSpec(st, text, lang, source, now);
            TranslateTextSpec(r.state, text, lang, source2, now) == Step(r.value, r.state)
  {
    var key := CacheKeyOf(text, lang);
    var rd := ReadCache(st.storage, key, now);
    if !(rd.value.Some? && rd.value.value != "") {
      TranslateTextMiss(st, text, lang, source, now);
      var ps := ProviderOrder(st.premiumKey);
      var n := FirstAccepted(ps, st.script, text);
      assert n < |ps|;
    }
  }

  /** A translation fetched on a miss is served from the cache for the next
      30 days. */
  lemma FreshTranslationLasts(st: State, text: string, lang: string, source: string, source2: string, now: nat, later: nat)
    requires var rd := ReadCache(st.storage, CacheKeyOf(text, lang), now);
             !(rd.value.Some? && rd.value.value != "")
    requires TranslateTextSpec(st, text, lang, source, now).value != text
    requires later <= now + CACHE_DURATION
    ensures var r := TranslateTextSpec(st, text, lang, source, now);
            TranslateTextSpec(r.state, text, lang, source2, later) == Step(r.value, r.state)
  {
    TranslateTextMiss(st, text, lang, source, now);
    var ps := ProviderOrder(st.premiumKey);
    var n := FirstAccepted(ps, st.script, text);
    assert n < |ps|;
  }

  // ---------------------------------------------------------------------
  // No provider reachable
  // ---------------------------------------------------------------------

  /** No reply is scripted and no cache key holds a non-empty entry. */
  predicate Offline(st: State)
  {
    st.script == [] &&
    forall k :: k in st.storage && IsTranslationKey(k) ==> !(st.storage[k].Entry? && st.storage[k].text != "")
  }

  /** Offline, a translation returns its input and stays offline. */
  lemma OfflineTranslateText(st: State, text: string, lang: string, source: string, now: nat)
    requires Offline(st)
    ensures var r := TranslateTextSpec(st, text, lang, source, now);
            r.value == text && Offline(r.state)
  {
    if lang in {"ko", "zh"} {
      var key := CacheKeyOf(text, lang);
      CacheKeyIsTranslationKey(text, lang);
      var rd := ReadCache(st.storage, key, now);
      ChainOffline(st.(storage := rd.storage), ProviderOrder(st.premiumKey), text, lang, source);
    }
  }

  lemma {:induction false} OfflineTranslateAll(st: State, texts: seq<string>, lang: string, now: nat)
    requires Offline(st)
    ensures var r := TranslateAllSpec(st, texts, lang, now);
            r.value == texts && Offline(r.state)
  {
    if texts != [] {
      var front := texts[..|texts| - 1];
      OfflineTranslateAll(st, front, lang, now);
      var prev := TranslateAllSpec(st, front, lang, now);
      OfflineTranslateText(prev.state, texts[|texts| - 1], lang, "auto", now);
    }
  }

  /** Offline, a post of at most 2000 characters comes back as its
      500-character chunks glued together with no separator. */
  lemma OfflineShortPost(st: State, content: string, lang: string, now: nat)
    requires Offline(st) && JsLength(content) <= 2000
    ensures BlogPostSpec(st, content, lang, now).value == Join(ChunksOf(content, 500), "")
  {
    OfflineTranslateAll(st, ChunksOf(content, 500), lang, now);
    if JsLength(content) > 500 {
      OfflineTranslateText(st, content, lang, "auto", now);
      var direct := TranslateTextSpec(st, content, lang, "auto", now);
      OfflineTranslateAll(direct.state, ChunksOf(content, 500), lang, now);
    }
  }

  /** Offline, a post of at most 500 characters comes back trimmed, with the
      space after each sentence end collapsed to one. */
  lemma OfflineSmallPost(st: State, content: string, lang: string, now: nat)
    requires Offline(st) && JsLength(content) <= 500
    ensures BlogPostSpec(st, content, lang, now).value ==
              if IsBlank(content) then "" else Trim(Join(SplitSentences(content), " "))
  {
    OfflineShortPost(st, content, lang, now);
    ShortTextIsOneChunk(content, 500);
  }

  /** The tokens of a sequence are unchanged by dropping strings that have
      none. */
  lemma {:induction false} TokensOfAllFilterBlank(ps: seq<string>)
    ensures TokensOfAll(Filter(ps, KeepParagraph)) == TokensOfAll(ps)
  {
    if ps != [] {
      var rest := Filter(ps[1..], KeepParagraph);
      TokensOfAllFilterBlank(ps[1..]);
      if KeepParagraph(ps[0]) {
        var kept := [ps[0]] + rest;
        assert Filter(ps, KeepParagraph) == kept;
        assert kept[0] == ps[0] && kept[1..] == rest;
        assert TokensOfAll(kept) == Tokens(ps[0]) + TokensOfAll(rest);
      } else {
        assert Filter(ps, KeepParagraph) == rest;
        TrimEmptyIffBlank(ps[0]);
        TokensEmptyIffBlank(ps[0]);
        assert TokensOfAll(ps) == Tokens(ps[0]) + TokensOfAll(ps[1..]);
      }
    }
  }

  /** Offline, each paragraph's atom has the paragraph's tokens. */
  lemma OfflineAtom(st: State, p: string, lang: string, now: nat)
    requires Offline(st)
    ensures var a := AtomSpec(st, p, lang, now);
            Tokens(a.value) == Tokens(p) && Offline(a.state)
  {
    if JsLength(p) > 1000 {
      OfflineTranslateAll(st, ChunksOf(p, 300), lang, now);
      TokensOfJoin(ChunksOf(p, 300), " ");
      ChunksKeepTokens(p, 300);
    } else {
      OfflineTranslateText(st, p, lang, "auto", now);
    }
  }

  lemma {:induction false} OfflineAtoms(st: State, ps: seq<string>, lang: string, now: nat)
    requires Offline(st)
    ensures var r := AtomsSpec(st, ps, lang, now);
            TokensOfAll(r.value) == TokensOfAll(ps) && Offline(r.state)
  {
    if ps != [] {
      var front := ps[..|ps| - 1];
      var last := ps[|ps| - 1];
      OfflineAtoms(st, front, lang, now);
      TokensOfAllLast(ps);
      TokensOfTrim(last);
      var prev := AtomsSpec(st, front, lang, now);
      var p := Trim(last);
      if p == "" {
        TokensEmptyIffBlank(p);
      } else {
        OfflineAtom(prev.state, p, lang, now);
        TokensOfAllSnoc(prev.value, AtomSpec(prev.state, p, lang, now).value);
      }
    }
  }

  /** Offline, a long post keeps every word, in order. */
  lemma OfflineLongContentKeepsWords(st: State, content: string, lang: string, now: nat)
    requires Offline(st)
    ensures Tokens(LongContentSpec(st, content, lang, now).value) == Tokens(content)
  {
    var ps := Paragraphs(content);
    OfflineAtoms(st, ps, lang, now);
    TokensOfJoin(AtomsSpec(st, ps, lang, now).value, "\n\n");
    TokensOfAllFilterBlank(SplitParagraphs(content));
    TokensOfParagraphs(content);
  }

  /** Every kept paragraph yields exactly one atom. */
  lemma {:induction false} OneAtomPerParagraph(st: State, ps: seq<string>, lang: string, now: nat)
    requires forall i :: 0 <= i < |ps| ==> KeepParagraph(ps[i])
    ensures |AtomsSpec(st, ps, lang, now).value| == |ps|
  {
    if ps != [] {
      OneAtomPerParagraph(st, ps[..|ps| - 1], lang, now);
    }
  }

  /** The long-content path yields one atom per non-blank paragraph. */
  lemma LongContentAtomCount(st: State, content: string, lang: string, now: nat)
    ensures |AtomsSpec(st, Paragraphs(content), lang, now).value| == CountWhere(SplitParagraphs(content), KeepParagraph)
  {
    OneAtomPerParagraph(st, Paragraphs(content), lang, now);
    FilterIsOrderedSelection(SplitParagraphs(content), KeepParagraph);
  }

  // ---------------------------------------------------------------------
  // testTranslation, getAvailableMethods, checkAPIStatus
  // ---------------------------------------------------------------------

  /** A test succeeds exactly when the translation differs from the input;
      offline, or into English, it always reports the fallback. */
  lemma TestTranslationVerdict(st: State, text: string, lang: string, now: nat)
    ensures var t := TranslateTextSpec(st, text, lang, "auto", now);
            var r := TestResultOf(text, t.value);
            (r.success <==> t.value != text) && (r.error.None? <==> r.success) &&
            r.translatedText == t.value && r.originalText == text
    ensures Offline(st) || lang == "en" ==>
              TestResultOf(text, TranslateTextSpec(st, text, lang, "auto", now).value) ==
                TestResult(false, text, text, Some("Translation returned same text"), "Fallback")
  {
    if Offline(st) {
      OfflineTranslateText(st, text, lang, "auto", now);
    }
  }

  /** Five methods are listed; Google is available exactly when a key is
      configured and the free APIs always are, in list order. */
  lemma AvailableMethodsFacts(premiumKey: string)
    ensures var ms := AvailableMethods(premiumKey);
            |ms| == 5 &&
            ms[0] == MethodInfo("Google Translate", Premium, premiumKey != "") &&
            forall i :: 1 <= i < 5 ==> ms[i] == MethodInfo(Name(FREE_APIS[i - 1]), Free, true)
  {
  }

  /** Probing the free APIs asks each of `ps` once, in order, with `Hello`
      into Korean from English; an API is reported available exactly when
      its request did not throw, and then with no error. */
  lemma ProbeFreeFacts(st: State, ps: seq<Provider>)
    ensures var r := ProbeFreeSpec(st, ps);
            r.state == st.(script := Drop(st.script, |ps|), log := st.log + CallsFor(ps, "Hello", "ko", "en")) &&
            forall i :: 0 <= i < |ps| ==>
              r.value[i].name == Name(ps[i]) &&
              (r.value[i].available <==> !Interpret(ps[i], ReplyAt(st.script, i), "Hello").Threw?) &&
              (r.value[i].available <==> r.value[i].error.None?)
  {
    ProbeFreeState(st, ps);
    var r := ProbeFreeSpec(st, ps);
    forall i | 0 <= i < |ps|
      ensures r.value[i].name == Name(ps[i]) &&
              (r.value[i].available <==> !Interpret(ps[i], ReplyAt(st.script, i), "Hello").Threw?) &&
              (r.value[i].available <==> r.value[i].error.None?)
    {
      ProbeFreeAt(st, ps, i);
    }
  }

  lemma {:induction false} ProbeFreeState(st: State, ps: seq<Provider>)
    ensures ProbeFreeSpec(st, ps).state ==
            st.(script := Drop(st.script, |ps|), log := st.log + CallsFor(ps, "Hello", "ko", "en"))
    decreases |ps|
  {
    if ps == [] {
      assert Drop(st.script, 0) == st.script;
      assert st.log + CallsFor(ps, "Hello", "ko", "en") == st.log;
    } else {
      var front := ps[..|ps| - 1];
      var call := Call(ps[|ps| - 1], "Hello", "ko", "en");
      ProbeFreeState(st, front);
      DropOneMore(st.script, |front|);
      CallsForSnoc(ps);
      AppendAssoc(st.log, CallsFor(front, "Hello", "ko", "en"), [call]);
    }
  }

  lemma DropOneMore(script: seq<Reply>, n: nat)
    ensures Rest(Drop(script, n)) == Drop(script, n + 1)
  {
  }

  lemma CallsForSnoc(ps: seq<Provider>)
    requires ps != []
    ensures CallsFor(ps[..|ps| - 1], "Hello", "ko", "en") + [Call(ps[|ps| - 1], "Hello", "ko", "en")]
            == CallsFor(ps, "Hello", "ko", "en")
  {
  }

  /** The status entry for provider `p` whose request got `reply`. */
  predicate ReportsProbe(s: ProviderStatus, p: Provider, reply: Reply)
  {
    s.name == Name(p) &&
    (s.available <==> !Interpret(p, reply, "Hello").Threw?) &&
    (s.available <==> s.error.None?)
  }

  lemma {:induction false} ProbeFreeAt(st: State, ps: seq<Provider>, i: nat)
    requires i < |ps|
    ensures ReportsProbe(ProbeFreeSpec(st, ps).value[i], ps[i], ReplyAt(st.script, i))
    decreases |ps|
  {
    if i < |ps| - 1 {
      ProbeFreeAt(st, ps[..|ps| - 1], i);
      ProbeFreeKeepsFront(st, ps, i);
    } else {
      ProbeFreeLast(st, ps);
    }
  }

  /** Probing one more API leaves the earlier entries as they were. */
  lemma ProbeFreeKeepsFront(st: State, ps: seq<Provider>, i: nat)
    requires i < |ps| - 1
    ensures ProbeFreeSpec(st, ps).value[i] == ProbeFreeSpec(st, ps[..|ps| - 1]).value[i]
    ensures ps[i] == ps[..|ps| - 1][i]
  {
  }

  /** The last entry reports the reply to the last request. */
  lemma ProbeFreeLast(st: State, ps: seq<Provider>)
    requires ps != []
    ensures ReportsProbe(ProbeFreeSpec(st, ps).value[|ps| - 1], ps[|ps| - 1], ReplyAt(st.script, |ps| - 1))
  {
    var front := ps[..|ps| - 1];
    var last := |ps| - 1;
    var prev := ProbeFreeSpec(st, front);
    ProbeFreeState(st, front);
    assert NextReply(prev.state.script) == ReplyAt(st.script, last);
    StatusOfReports(ps[last], ReplyAt(st.script, last));
  }

  lemma StatusOfReports(p: Provider, reply: Reply)
    ensures ReportsProbe(StatusOf(Name(p), Interpret(p, reply, "Hello")), p, reply)
  {
  }

  /** The status check asks Google only when a key is set, then every free
      API once, in list order; an API is reported available exactly when its
      request did not throw. */
  lemma CheckApiStatusFacts(st: State)
    ensures var r := CheckApiStatusSpec(st);
            var g := if st.premiumKey != "" then 1 else 0;
            (r.value.googleHasKey <==> st.premiumKey != "") &&
            r.state.log == st.log + CallsFor(ProviderOrder(st.premiumKey), "Hello", "ko", "en") &&
            r.state.script == Drop(st.script, g + 4) &&
            (st.premiumKey == "" ==> r.value.google == ProviderStatus("Google Translate", false, None)) &&
            (st.premiumKey != "" ==>
               (r.value.google.available <==> !Interpret(GoogleTranslate, ReplyAt(st.script, 0), "Hello").Threw?)) &&
            |r.value.freeApis| == 4 &&
            forall i :: 0 <= i < 4 ==>
              r.value.freeApis[i].name == Name(FREE_APIS[i]) &&
              (r.value.freeApis[i].available <==>
                 !Interpret(FREE_APIS[i], ReplyAt(st.script, g + i), "Hello").Threw?)
  {
    var g := if st.premiumKey != "" then 1 else 0;
    if st.premiumKey != "" {
      var c := CallSpec(st, GoogleTranslate, "Hello", "ko", "en");
      ProbeFreeFacts(c.state, FREE_APIS);
      forall i | 0 <= i < 4
        ensures ReplyAt(c.state.script, i) == ReplyAt(st.script, 1 + i)
      {
        ReplyAtRest(st.script, i);
      }
      DropRest(st.script, 4);
      CallsForPrepend(GoogleTranslate, FREE_APIS, "Hello", "ko", "en");
      assert ProviderOrder(st.premiumKey) == [GoogleTranslate] + FREE_APIS;
    } else {
      ProbeFreeFacts(st, FREE_APIS);
    }
  }
}
