/** The blog post view's translation: on a change of language it either
    restores the original text (English) or translates the title and the
    body, checking first that the title translates at all and falling back
    to a sentence-by-sentence translation when the body comes back
    unchanged. */
module BlogPostView {
  import opened JsStrings
  import opened Seqs
  import opened Chunking
  import opened TranslationService
  import opened TranslationLaws
  import opened LanguageSession

  // ---------------------------------------------------------------------
  // translateContentInChunks
  // ---------------------------------------------------------------------

  /** The loop of `translateContentInChunks` over the sentences: each is
      trimmed and, when non-empty, translated on its own. */
  function SentencesSpec(st: State, sentences: seq<string>, lang: string, now: nat): Step<seq<string>>
  {
    if sentences == [] then Step([], st)
    else
      var prev := SentencesSpec(st, sentences[..|sentences| - 1], lang, now);
      var s := Trim(sentences[|sentences| - 1]);
      if s == "" then prev
      else
        var t := TranslateTextSpec(prev.state, s, lang, "auto", now);
        Step(prev.value + [t.value], t.state)
  }

  lemma SentencesSpecStep(st: State, ss: seq<string>, i: nat, lang: string, now: nat)
    requires i < |ss|
    ensures SentencesSpec(st, ss[..i + 1], lang, now) ==
            var prev := SentencesSpec(st, ss[..i], lang, now);
            if Trim(ss[i]) == "" then prev
            else
              var t := TranslateTextSpec(prev.state, Trim(ss[i]), lang, "auto", now);
              Step(prev.value + [t.value], t.state)
  {
    assert ss[..i + 1][..i] == ss[..i];
  }

  /** The non-blank sentences of `content`, in order. */
  function Sentences(content: string): seq<string>
  {
    Filter(SplitSentences(content), KeepParagraph)
  }

  /** `translateContentInChunks(content, lang)`: the sentence translations
      joined by single spaces. */
  function InChunksSpec(st: State, content: string, lang: string, now: nat): Step<string>
  {
    var r := SentencesSpec(st, Sentences(content), lang, now);
    Step(Join(r.value, " "), r.state)
  }

  /** Every non-blank sentence yields exactly one translation. */
  lemma {:induction false} OneTranslationPerSentence(st: State, ss: seq<string>, lang: string, now: nat)
    requires forall i :: 0 <= i < |ss| ==> KeepParagraph(ss[i])
    ensures |SentencesSpec(st, ss, lang, now).value| == |ss|
  {
    if ss != [] {
      OneTranslationPerSentence(st, ss[..|ss| - 1], lang, now);
    }
  }

  /** The fallback yields as many pieces as the content has non-blank
      sentences. */
  lemma SentenceCount(st: State, content: string, lang: string, now: nat)
    ensures |SentencesSpec(st, Sentences(content), lang, now).value| == CountWhere(SplitSentences(content), KeepParagraph)
  {
    OneTranslationPerSentence(st, Sentences(content), lang, now);
    FilterIsOrderedSelection(SplitSentences(content), KeepParagraph);
  }

  lemma {:induction false} OfflineSentences(st: State, ss: seq<string>, lang: string, now: nat)
    requires Offline(st)
    ensures var r := SentencesSpec(st, ss, lang, now);
            TokensOfAll(r.value) == TokensOfAll(ss) && Offline(r.state)
  {
    if ss != [] {
      var front := ss[..|ss| - 1];
      var last := ss[|ss| - 1];
      OfflineSentences(st, front, lang, now);
      TokensOfAllLast(ss);
      TokensOfTrim(last);
      var prev := SentencesSpec(st, front, lang, now);
      var s := Trim(last);
      if s == "" {
        TokensEmptyIffBlank(s);
      } else {
        OfflineTranslateText(prev.state, s, lang, "auto", now);
        TokensOfAllSnoc(prev.value, TranslateTextSpec(prev.state, s, lang, "auto", now).value);
      }
    }
  }

  /** With no provider reachable, the fallback keeps every word of the
      content, in order: only the whitespace between sentences changes. */
  lemma OfflineChunksKeepWords(st: State, content: string, lang: string, now: nat)
    requires Offline(st)
    ensures var r := InChunksSpec(st, content, lang, now);
            Tokens(r.value) == Tokens(content) && Offline(r.state)
  {
    var ss := Sentences(content);
    OfflineSentences(st, ss, lang, now);
    TokensOfJoin(SentencesSpec(st, ss, lang, now).value, " ");
    TokensOfAllFilterBlank(SplitSentences(content));
    TokensOfSentences(content);
  }

  // ---------------------------------------------------------------------
  // translateContent and the language-change effect
  // ---------------------------------------------------------------------

  /** The view's translation state. */
  datatype View = View(translatedTitle: string, translatedContent: string, translationError: bool, isTranslating: bool)

  /** `translateContent` for a post with `title` and `content` (missing
      content is ""), starting from view `v`. */
  function TranslateContentSpec(st: State, v: View, title: string, content: string, lang: Language, now: nat): Step<View>
  {
    if content == "" then Step(v, st)
    else
      var code := Code(lang);
      var test := TranslateTextSpec(st, title, code, "auto", now);
      if !TestResultOf(title, test.value).success then
        Step(v.(translationError := true, isTranslating := false), test.state)
      else AfterTestSpec(test.state, v.(translationError := false, isTranslating := true), title, content, code, now)
  }

  /** What `translateContent` does once the title test has passed: the
      title is translated, then the rest follows `AfterTitleSpec`. */
  function AfterTestSpec(st: State, v: View, title: string, content: string, code: string, now: nat): Step<View>
  {
    var nt := TranslateTextSpec(st, title, code, "auto", now);
    AfterTitleSpec(nt.state, v, title, nt.value, content, code, now)
  }

  /** After the title became `newTitle`: the whole post is translated, and
      the rest follows `AfterPostSpec`. */
  function AfterTitleSpec(st: State, v: View, title: string, newTitle: string, content: string, code: string, now: nat): Step<View>
  {
    var nc := BlogPostSpec(st, content, code, now);
    AfterPostSpec(nc.state, v, title, newTitle, content, nc.value, code, now)
  }

  /** After the post became `newContent`: the error when neither the title
      nor the post changed, the chunked translation when only the post came
      back unchanged, and both translations otherwise. */
  function AfterPostSpec(st: State, v: View, title: string, newTitle: string, content: string, newContent: string,
                         code: string, now: nat): Step<View>
  {
    if newTitle == title && newContent == content then
      Step(v.(translationError := true, isTranslating := false), st)
    else if newContent == content then ChunkedSpec(st, newTitle, content, code, now)
    else Step(View(newTitle, newContent, false, false), st)
  }

  /** The chunked fallback: its result `chunked` is shown with the new
      title when it changed something; otherwise the error is raised and the
      new title is shown over the original post. */
  function ChunkedView(newTitle: string, content: string, chunked: string): View
  {
    if chunked != content then View(newTitle, chunked, false, false)
    else View(newTitle, content, true, false)
  }

  function ChunkedSpec(st: State, newTitle: string, content: string, code: string, now: nat): Step<View>
  {
    var ch := InChunksSpec(st, content, code, now);
    Step(ChunkedView(newTitle, content, ch.value), ch.state)
  }

  /** The effect on `[language, title, content]`. */
  function LanguageChangeSpec(st: State, v: View, title: string, content: string, lang: Language, now: nat): Step<View>
  {
    if lang != En && content != "" then TranslateContentSpec(st, v, title, content, lang, now)
    else if lang == En then Step(View(title, content, false, false), st)
    else Step(v, st)
  }

  /** Once the title test has passed, translating the title again is served
      from the cache and gives the same text: the branch for "title and
      content both unchanged" can never be taken. */
  lemma TitleRetranslationIsCached(st: State, title: string, lang: Language, now: nat)
    requires TranslateTextSpec(st, title, Code(lang), "auto", now).value != title
    ensures var test := TranslateTextSpec(st, title, Code(lang), "auto", now);
            TranslateTextSpec(test.state, title, Code(lang), "auto", now) == test
  {
    RepeatIsServedFromCache(st, title, Code(lang), "auto", "auto", now);
  }

  /** The outcomes of `translateContent` on a post with content. Without an
      error both the title and the content shown are translations that
      differ from the originals. With an error, either the title test
      failed and nothing shown changed, or only the title could be
      translated and the content shown is the original. In every case the
      view ends not translating. */
  lemma TranslateContentOutcomes(st: State, v: View, title: string, content: string, lang: Language, now: nat)
    requires content != ""
    ensures var r := TranslateContentSpec(st, v, title, content, lang, now).value;
            !r.isTranslating &&
            (!r.translationError ==> r.translatedTitle != title && r.translatedContent != content) &&
            (r.translationError ==>
               (r.translatedTitle == v.translatedTitle && r.translatedContent == v.translatedContent) ||
               (r.translatedTitle != title && r.translatedContent == content))
  {
    var test := TranslateTextSpec(st, title, Code(lang), "auto", now);
    if test.value != title {
      TitleRetranslationIsCached(st, title, lang, now);
      AfterTestOutcomes(test.state, v.(translationError := false, isTranslating := true), title, content, Code(lang), now);
    }
  }

  /** Once the title test has passed, the view ends not translating, shows
      the title's new translation `nt` unless nothing changed, and raises
      the error exactly when the post could not be translated. */
  lemma AfterTestOutcomes(st: State, v: View, title: string, content: string, code: string, now: nat)
    ensures var nt := TranslateTextSpec(st, title, code, "auto", now).value;
            var r := AfterTestSpec(st, v, title, content, code, now).value;
            !r.isTranslating &&
            (!r.translationError ==> r.translatedTitle == nt && r.translatedContent != content) &&
            (r.translationError ==>
               (r.translatedTitle == v.translatedTitle && r.translatedContent == v.translatedContent) ||
               (r.translatedTitle == nt && nt != title && r.translatedContent == content))
  {
    var nt := TranslateTextSpec(st, title, code, "auto", now);
    var nc := BlogPostSpec(nt.state, content, code, now);
    AfterPostOutcomes(nc.state, v, title, nt.value, content, nc.value, code, now);
  }

  lemma AfterPostOutcomes(st: State, v: View, title: string, newTitle: string, content: string, newContent: string,
                          code: string, now: nat)
    ensures var r := AfterPostSpec(st, v, title, newTitle, content, newContent, code, now).value;
            !r.isTranslating &&
            (!r.translationError ==> r.translatedTitle == newTitle && r.translatedContent != content) &&
            (r.translationError ==>
               (r.translatedTitle == v.translatedTitle && r.translatedContent == v.translatedContent) ||
               (r.translatedTitle == newTitle && newTitle != title && r.translatedContent == content))
  {
  }

  /** In English the title test always fails, so `translateContent` only
      raises the error; the effect never calls it in English. */
  lemma EnglishTestFails(st: State, v: View, title: string, content: string, now: nat)
    requires content != ""
    ensures TranslateContentSpec(st, v, title, content, En, now) == Step(v.(translationError := true, isTranslating := false), st)
  {
  }

  /** With no provider reachable and nothing cached, the title test fails:
      the view keeps what it showed and raises the error, and the service
      stays offline. */
  lemma OfflineKeepsView(st: State, v: View, title: string, content: string, lang: Language, now: nat)
    requires Offline(st) && content != ""
    ensures var r := TranslateContentSpec(st, v, title, content, lang, now);
            r.value == v.(translationError := true, isTranslating := false) && Offline(r.state)
  {
    OfflineTranslateText(st, title, Code(lang), "auto", now);
  }

  /** Switching to English restores the originals and clears both flags
      without using the service; another language with no content leaves
      the view alone. */
  lemma LanguageChangeRules(st: State, v: View, title: string, content: string, lang: Language, now: nat)
    ensures lang == En ==> LanguageChangeSpec(st, v, title, content, lang, now) == Step(View(title, content, false, false), st)
    ensures lang != En && content == "" ==> LanguageChangeSpec(st, v, title, content, lang, now) == Step(v, st)
    ensures lang != En && content != "" ==> !LanguageChangeSpec(st, v, title, content, lang, now).value.isTranslating
  {
    if lang != En && content != "" {
      TranslateContentOutcomes(st, v, title, content, lang, now);
    }
  }

  class PostView {
    const service: Service
    const title: string
    /** The post body; a missing one is "". */
    const content: string
    var translatedTitle: string
    var translatedContent: string
    var translationError: bool
    var isTranslating: bool
    /** Every value `isTranslating` has been set to, in order. */
    var translatingFlags: seq<bool>

    function State(): View
      reads this
    {
      View(translatedTitle, translatedContent, translationError, isTranslating)
    }

    /** The view starts by showing the originals. */
    constructor (service: Service, title: string, content: string)
      ensures this.service == service && this.title == title && this.content == content
      ensures State() == View(title, content, false, false) && translatingFlags == []
    {
      this.service := service;
      this.title := title;
      this.content := content;
      translatedTitle := title;
      translatedContent := content;
      translationError := false;
      isTranslating := false;
      translatingFlags := [];
    }

    /** The loop of `translateContentInChunks`. */
    method TranslateSentences(sentences: seq<string>, targetLang: string, now: nat) returns (translatedSentences: seq<string>)
      modifies service
      ensures Step(translatedSentences, service.Snapshot()) == SentencesSpec(old(service.Snapshot()), sentences, targetLang, now)
    {
      ghost var start := service.Snapshot();
      translatedSentences := [];
      for i := 0 to |sentences|
        invariant Step(translatedSentences, service.Snapshot()) == SentencesSpec(start, sentences[..i], targetLang, now)
      {
        SentencesSpecStep(start, sentences, i, targetLang, now);
        var sentence := Trim(sentences[i]);
        if |sentence| > 0 {
          var translatedSentence := service.TranslateText(sentence, targetLang, "auto", now);
          translatedSentences := translatedSentences + [translatedSentence];
        }
      }
      assert sentences[..|sentences|] == sentences;
    }

    /** `translateContentInChunks(text, targetLang)`. The service never
        throws, so keeping a sentence whose translation threw, and the
        outer fallback to `text`, are not reachable. */
    method TranslateContentInChunks(text: string, targetLang: string, now: nat) returns (r: string)
      modifies service
      ensures Step(r, service.Snapshot()) == InChunksSpec(old(service.Snapshot()), text, targetLang, now)
    {
      var sentences := Filter(SplitSentences(text), KeepParagraph);
      var translatedSentences := TranslateSentences(sentences, targetLang, now);
      r := Join(translatedSentences, " ");
    }

    /** `translateContent` in language `lang`. The flag is raised once and
        lowered on every way out. */
    method TranslateContent(lang: Language, now: nat)
      modifies this, service
      ensures Step(State(), service.Snapshot()) ==
              TranslateContentSpec(old(service.Snapshot()), old(State()), title, content, lang, now)
      ensures content == "" ==> translatingFlags == old(translatingFlags)
      ensures content != "" ==>
                translatingFlags == old(translatingFlags) + [true] + [false] ||
                translatingFlags == old(translatingFlags) + [true] + [false] + [false]
    {
      if content == "" {
        return;
      }
      translationError := false;
      isTranslating := true;
      translatingFlags := translatingFlags + [true];
      var testResult := service.TestTranslation(title, Code(lang), now);
      if !testResult.success {
        translationError := true;
        isTranslating := false;
        translatingFlags := translatingFlags + [false];
        translatingFlags := translatingFlags + [false];
        return;
      }
      TranslateAfterTest(Code(lang), now);
    }

    /** The fallback of `translateContent` when the post came back
        unchanged. */
    method ChunkFallback(newTitle: string, code: string, now: nat)
      requires !translationError
      modifies this, service
      ensures Step(State(), service.Snapshot()) == ChunkedSpec(old(service.Snapshot()), newTitle, content, code, now)
      ensures translatingFlags == old(translatingFlags)
    {
      var chunkedContent := TranslateContentInChunks(content, code, now);
      ShowChunked(newTitle, chunkedContent);
    }

    /** Shows the result `chunkedContent` of the chunked translation. */
    method ShowChunked(newTitle: string, chunkedContent: string)
      requires !translationError
      modifies this
      ensures State() == ChunkedView(newTitle, content, chunkedContent)
      ensures translatingFlags == old(translatingFlags)
    {
      if chunkedContent != content {
        translatedTitle := newTitle;
        translatedContent := chunkedContent;
      } else {
        translationError := true;
        translatedTitle := newTitle;
        translatedContent := content;
      }
      isTranslating := false;
    }

    /** The part of `translateContent` after a passed title test; the error
        flag has been cleared at the start. */
    method TranslateAfterTest(code: string, now: nat)
      requires !translationError
      modifies this, service
      ensures Step(State(), service.Snapshot()) == AfterTestSpec(old(service.Snapshot()), old(State()), title, content, code, now)
      ensures translatingFlags == old(translatingFlags) + [false] || translatingFlags == old(translatingFlags) + [false] + [false]
    {
      var newTitle := service.TranslateText(title, code, "auto", now);
      TranslateAfterTitle(newTitle, code, now);
    }

    /** The part of `translateContent` after the title became `newTitle`.
        The flag is lowered at the end, and once more before that on the
        early return for an unchanged title and post, since the `finally`
        clause runs after it. */
    method TranslateAfterTitle(newTitle: string, code: string, now: nat)
      requires !translationError
      modifies this, service
      ensures Step(State(), service.Snapshot()) == AfterTitleSpec(old(service.Snapshot()), old(State()), title, newTitle, content, code, now)
      ensures translatingFlags == old(translatingFlags) + [false] || translatingFlags == old(translatingFlags) + [false] + [false]
    {
      var newContent := service.TranslateBlogPost(content, code, now);
      ShowPost(newTitle, newContent, code, now);
    }

    /** `translateContent` once the post became `newContent`. */
    method ShowPost(newTitle: string, newContent: string, code: string, now: nat)
      requires !translationError
      modifies this, service
      ensures Step(State(), service.Snapshot()) ==
              AfterPostSpec(old(service.Snapshot()), old(State()), title, newTitle, content, newContent, code, now)
      ensures translatingFlags == old(translatingFlags) + [false] || translatingFlags == old(translatingFlags) + [false] + [false]
    {
      if newTitle == title && newContent == content {
        translationError := true;
        isTranslating := false;
        translatingFlags := translatingFlags + [false];
      } else if newContent == content {
        ChunkFallback(newTitle, code, now);
      } else {
        translatedTitle := newTitle;
        translatedContent := newContent;
        isTranslating := false;
      }
      translatingFlags := translatingFlags + [false];
    }

    /** The effect that runs when the language changes. */
    method OnLanguageChange(lang: Language, now: nat)
      modifies this, service
      ensures Step(State(), service.Snapshot()) ==
              LanguageChangeSpec(old(service.Snapshot()), old(State()), title, content, lang, now)
    {
      if lang != En && content != "" {
        TranslateContent(lang, now);
      } else if lang == En {
        translatedTitle := title;
        translatedContent := content;
        translationError := false;
        isTranslating := false;
        translatingFlags := translatingFlags + [false];
      }
    }

    /** The "Show Original" button: the originals and no error, whatever
        the language. */
    method ShowOriginal()
      modifies this
      ensures State() == old(State()).(translatedTitle := title, translatedContent := content, translationError := false)
      ensures translatingFlags == old(translatingFlags)
    {
      translatedTitle := title;
      translatedContent := content;
      translationError := false;
    }
  }
}
