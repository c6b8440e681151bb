# Translation pipeline and page logic of the LifeEasy site, in Dafny

This project models the parts of a React/TypeScript company site that do real
work rather than rendering.

The centre of it is `LibreTranslationService`, which translates site content
into Korean or Chinese. It works as follows:

- It hashes a text into a cache key (a 32-bit rolling hash, written in base 36).
- It keeps translations in `localStorage` for 30 days.
- It tries the providers in a fixed order: Google only when an API key is set,
  then LibreTranslate, MyMemory, LingvaTranslate and TranslateAPI.
- It accepts the first result that is non-empty and differs from the input.
- Long blog posts are split into sentence or paragraph chunks before they are
  translated, and put back together afterwards.

Around the service sit:

- the language session, with the static dictionary lookup `t` and dynamic
  translation under an `isTranslating` flag;
- the blog post view, with its translation outcome rules and its
  sentence-by-sentence fallback;
- the blog editor, with form validation, tag parsing and the read-time label;
- the blog list, with search, category filter and distinct categories;
- the store filter;
- the quote form, with quantity guards and price tiers;
- the two carousels;
- the cache-health card.

## How the model is built

Imperative code is modelled imperatively; pure code is modelled as functions.

- **Service state.** The service is a class `TranslationService.Service`. Its
  fields are:
  - the storage, a map from keys to stored slots;
  - a script of HTTP replies, one per fetch;
  - a log of the provider requests made;
  - the premium API key.
- **Tying methods to specifications.** Each method is proved equal to a
  specification function on a `State` value (`ensures Step(r, Snapshot()) ==
  ...Spec(old(Snapshot()), ...)`). The properties are then lemmas about those
  functions.
- **Providers.** A provider call takes the next scripted reply; when none is
  left, the fetch fails. Its effect on the answer goes through the field each
  API reads (`Providers.Interpret`). Because every call is logged, the model
  can state which providers were asked and that no provider after the
  accepted one was.
- **JavaScript semantics, written out:**
  - string lengths count UTF-16 code units (`JsStrings.JsLength`);
  - hashing uses ToInt32 wrap-around;
  - `%` truncates, so its result takes the sign of the dividend (`CyclicIndex.JsRem`);
  - `\s` is the ECMAScript whitespace set;
  - `split` and `join` follow JavaScript, including empty pieces;
  - the regular-expression splits are written as functions: `(?<=[.!?])\s+`,
    `\n\s*\n` and `\s+`;
  - `toString(36)` and `Math.ceil` follow JavaScript too.
- **Components.** Each React component with state that its handlers update
  is a class whose fields are its state variables. The five components with
  a busy flag also keep a record of every value that flag was set to. They
  are `LanguageSession.Session`, `BlogPostView.PostView`, `Blog.BlogPage`,
  `BlogManagement.Editor` and `TranslationStatus.StatusPanel`. With that
  record the contracts can say that the flag is raised and then lowered on
  every path. The store filter has no such state and is modelled as pure
  functions (`Store`).

Behaviours of the code that the model makes explicit:

- A read treats an empty stored string as a miss. It also treats an entry
  that does not parse as a miss, and leaves that entry in place. The sweep
  deletes unparsable entries, but it skips the empty string, which therefore
  stays for good (`TranslationCache.ReadCache`,
  `TranslationCache.CleanupLeavesOnlyLive`).
- A post of 501 to 2000 UTF-16 code units is split into chunks aimed at 500
  units (`Chunking.ChunksOf`). The splits fall at sentence boundaries, and at
  word boundaries for a sentence too long on its own. Some pieces are kept
  whole and can exceed 500 units: a long sentence that follows another
  sentence, and a single overlong word. The translated chunks are joined
  with `''`, that is with no separator (`TranslationService.BlogPostSpec`).
  The words at chunk borders therefore run together
  (`TranslationLaws.OfflineShortPost`).
- `splitTextIntoChunks` can return an empty chunk, and it keeps an overlong
  blank word (`Chunking.EmptyChunkIsPossible`, `Chunking.OverlongBlankWordIsKept`).
- Within the model, the blog post branch for "title and content both
  unchanged" can never be reached. The title test has already cached the
  title's translation, so the second translation of the title differs from
  the title whenever the test passed
  (`BlogPostView.TitleRetranslationIsCached`). This rests on two model
  assumptions listed under "Left out": the test's cache write succeeds, and
  no time passes between the two calls. If `setItem` throws (a full store),
  the second call misses the cache and asks the providers again, and the
  branch can then run.
- The blog editor calls `BlogService.createBlogPost` and
  `BlogService.updateBlogPost`, which `src/services/blogService.ts` does not
  define. In JavaScript every save would therefore throw and end with "Failed
  to save blog post". The model takes the outcome of the save as an input.
- `fetchBlogPosts` replaces the list only when `response.success` is true,
  but the declared response type (`message`, `result`, `data`) has no
  `success` field. A reply of exactly the declared shape therefore never
  replaces the list (`BlogManagement.DeclaredReplyKeepsPosts`); the model
  still takes `success` as an input, because the parsed JSON is not checked
  against that type.

## Model

| member | source | states |
|---|---|---|
| CacheKey.ToInt32 | src/services/translationService.ts:89-90 | the wrap-around of `hash & hash` always lands in the signed 32-bit range |
| CacheKey.HashString | src/services/translationService.ts:85-93 | the loop over the UTF-16 code units yields the base-36 digits of the absolute 32-bit hash |
| CacheKey.HashStepIsInt32Polynomial | src/services/translationService.ts:89-90 | one step `((h << 5) - h) + c` then `& h` equals `ToInt32(31*h + c)` |
| CacheKey.HashIsWrappedPolynomial | src/services/translationService.ts:85-93 | the rolling hash equals the 32-bit wrap of the exact polynomial hash over the code units (Horner's rule) |
| CacheKey.HashDigitsDecode | src/services/translationService.ts:92 | the digits are base-36 digits with no sign, and read back as a value of at most 2^31 |
| CacheKey.CacheKeyShape | src/services/translationService.ts:81-83 | the key starts with `translation_<lang>_` and its tail reads back as the absolute hash |
| CacheKey.CacheKeySeparates | src/services/translationService.ts:81-83 | equal keys for languages of equal length mean the same language and the same hash digits |
| TranslationCache.ReadCache | src/services/translationService.ts:95-113 | a value is returned exactly when a parsable entry has not expired (`now <= expiresAt`); an expired entry is removed; missing, empty and unparsable slots leave storage unchanged |
| TranslationCache.WriteCache | src/services/translationService.ts:115-127 | the key gets an entry stamped now and expiring 30 days later; every other key is unchanged (the 30-day lifetime is line 21) |
| TranslationCache.ReadAfterWrite | src/services/translationService.ts:95-127 | a written entry is served for exactly 30 days; the first read after that evicts it |
| TranslationCache.WriteIsolated | src/services/translationService.ts:115-127 | a write under one key never changes what a read under another key returns |
| TranslationCache.Cleaned | src/services/translationService.ts:344-368 | the sweep only removes keys, keeps the values of the keys it keeps, and never removes a key outside the cache |
| TranslationCache.CleanupKeepsOtherKeys | src/services/translationService.ts:346-347 | keys without the `translation_` prefix survive the sweep unchanged |
| TranslationCache.CleanupLeavesOnlyLive | src/services/translationService.ts:349-361 | after the sweep every translation key holds a live entry, or the empty string that the sweep's `if (cached)` skips |
| TranslationCache.CleanupIdempotent | src/services/translationService.ts:344-368 | a second sweep at the same time removes nothing more |
| TranslationCache.CleanupPreservesReads | src/services/translationService.ts:344-368 | the sweep never changes what a read at the same time returns (the read is lines 95-113) |
| TranslationCache.CleanupMonotone | src/services/translationService.ts:354 | a later sweep leaves no more keys than an earlier one |
| TranslationCache.TranslationKeys | src/services/translationService.ts:372-373 | the keys `getCacheStats` counts are stored keys |
| TranslationCache.CleanupShrinksStats | src/services/translationService.ts:344-391 | the sweep never increases the entry count or the total stored size |
| TranslationCache.EntrySize | src/services/translationService.ts:377-380 | a stored entry's JSON is longer than its escaped text, so every entry adds to the size (the stored entry is written at line 123) |
| Providers.ProviderOrderFacts | src/services/translationService.ts:158-172 | Google is tried exactly when a key is set, and then first; the four free APIs always close the list, in list order, each once (the provider list is lines 28-72) |
| Providers.InterpretThrows | src/services/translationService.ts:551-559 | a provider call throws exactly when the fetch fails, the status is not 2xx or the body is not JSON (the fetch helper is lines 602-606) |
| Providers.AcceptsIff | src/services/translationService.ts:562-575 | a result is accepted exactly when the provider's own response field is present, non-empty and differs from the input (the acceptance tests are lines 162 and 180) |
| Providers.ReturnedNonEmpty | src/services/translationService.ts:562-575 | the `field \|\| text` fallback never returns "" for non-empty input (the fallback of line 608 too) |
| TranslationService.Service.constructor | src/services/translationService.ts:20-26 | a service over the given storage, replies and key, with an empty request log |
| TranslationService.Service.CallProvider | src/services/translationService.ts:530-616 | one request consumes the next reply, is logged, and interprets that reply for the provider |
| TranslationService.Service.GetCachedTranslation | src/services/translationService.ts:95-113 | returns what `ReadCache` returns and leaves the storage as it does; no provider is asked |
| TranslationService.Service.SetCachedTranslation | src/services/translationService.ts:115-127 | storage becomes `WriteCache` of the old storage |
| TranslationService.Service.TranslateText | src/services/translationService.ts:129-200 | result and new state equal `TranslateTextSpec`: English first, then the language map, the cache, and the providers in order |
| TranslationService.TranslateAllSpec | src/services/translationService.ts:229-240 | one translation per input text, in order (the chunk loop of lines 266-269 uses it) |
| TranslationService.Service.TranslateAll | src/services/translationService.ts:229-240 | the chunks are translated one after another, equal to `TranslateAllSpec` (the chunk loop of lines 266-269 uses it) |
| TranslationService.Service.TranslateBlogPost | src/services/translationService.ts:202-250 | equals `BlogPostSpec`: over 2000 code units the long-content path; over 500 a direct attempt, kept when it changed; otherwise 500-unit chunks concatenated |
| TranslationService.Service.TranslateParagraph | src/services/translationService.ts:263-274 | a paragraph over 1000 units becomes its 300-unit chunks, translated and joined with spaces; a shorter one is translated whole |
| TranslationService.Service.TranslateLongContent | src/services/translationService.ts:253-295 | equals `LongContentSpec`: the atoms of the non-blank paragraphs joined with blank lines |
| TranslationService.Service.CleanupCache | src/services/translationService.ts:344-368 | the storage becomes `Cleaned` of the old storage; no provider is asked |
| TranslationService.Service.GetCacheStats | src/services/translationService.ts:370-391 | the number of translation keys and the sum of their stored lengths |
| TranslationService.Service.TestTranslation | src/services/translationService.ts:393-424 | the result shape built from `translateText`'s answer, and the same state change |
| TranslationService.ProbeFreeSpec | src/services/translationService.ts:448-460 | one status entry per free API probed |
| TranslationService.Service.ProbeFreeApis | src/services/translationService.ts:448-460 | the loop over the free APIs equals `ProbeFreeSpec` over all of them, in order |
| TranslationService.Service.CheckApiStatus | src/services/translationService.ts:426-464 | equals `CheckApiStatusSpec`: Google probed only with a key, then every free API once |
| Chunking.SplitSentences | src/services/translationService.ts:302 | `split(/(?<=[.!?])\s+/)` yields at least one piece |
| Chunking.SplitParagraphs | src/services/translationService.ts:256 | `split(/\n\s*\n/)` yields at least one piece |
| Chunking.TokensOfSentences | src/services/translationService.ts:302 | the sentence split loses only whitespace: the pieces hold the text's words, in order |
| Chunking.TokensOfParagraphs | src/services/translationService.ts:256 | the paragraph split loses only whitespace |
| Chunking.SentencePiecesNonEmpty | src/services/translationService.ts:302 | only the last sentence piece can be empty |
| Chunking.JoinedSentencesNoLonger | src/services/translationService.ts:302-331 | rejoining the sentences with single spaces never lengthens the text |
| Chunking.SplitTextIntoChunks | src/services/translationService.ts:297-341 | the nested sentence and word loops compute `ChunksOf(text, maxLength)` |
| Chunking.PlaceSentence | src/services/translationService.ts:305-333 | one pass of the sentence loop leaves the chunks and current chunk that one `SentenceStep` of the fold gives |
| Chunking.SplitOnSpaces | src/services/translationService.ts:310-325 | the word loop over a sentence too long to fit on its own leaves the chunks and pending words that folding its space-separated words gives |
| Chunking.PlaceWord | src/services/translationService.ts:315-323 | one pass of the word loop leaves the chunks and pending words that one `WordStep` of the fold gives |
| Chunking.ChunksKeepTokens | src/services/translationService.ts:297-341 | for every `maxLength` the chunks hold exactly the input's words, in order: none dropped, repeated or reordered |
| Chunking.ShortTextIsOneChunk | src/services/translationService.ts:304-336 | input within `maxLength` gives no chunk when blank, otherwise one: its sentences joined by single spaces, trimmed |
| Chunking.RejoinedBlankIffBlank | src/services/translationService.ts:302-335 | rejoining the sentences keeps a text blank or non-blank |
| Chunking.OverlongBlankWordIsKept | src/services/translationService.ts:318-321 | an overlong word is pushed untrimmed, so blank input can still give a chunk |
| Chunking.EmptyChunkIsPossible | src/services/translationService.ts:316-317 | a fitted whitespace-only word that is trimmed when the next word overflows leaves an empty chunk |
| TranslationLaws.FirstAccepted | src/services/translationService.ts:158-192 | the least provider index whose outcome is accepted; every earlier one is not accepted |
| TranslationLaws.FirstAcceptedFrom | src/services/translationService.ts:172-192 | the least accepted index at or after `i`; none between `i` and it is accepted |
| TranslationLaws.FirstAcceptedFromShift | src/services/translationService.ts:172-192 | searching from `i + 1` is searching the remaining providers from `i`, one fetch later |
| TranslationLaws.FirstAcceptedUnfold | src/services/translationService.ts:158-192 | the search stops at the first provider when it is accepted, and otherwise continues past it |
| TranslationLaws.CallCount | src/services/translationService.ts:158-192 | the number of providers asked never exceeds the list |
| TranslationLaws.CallsFor | src/services/translationService.ts:158-192 | one log entry per listed provider |
| TranslationLaws.ChainFirstAccepted | src/services/translationService.ts:158-192 | providers are asked in order up to and including the first accepted one, and no provider after it; its text is returned, or nothing |
| TranslationLaws.ChainOffline | src/services/translationService.ts:172-192 | with no replies every provider throws: nothing is returned and each is asked once |
| TranslationLaws.CacheKeyIsTranslationKey | src/services/translationService.ts:347 | every cache key is one the sweep examines (the key is built at line 82) |
| TranslationLaws.NoTranslationNeeded | src/services/translationService.ts:135-144 | English, or any target outside the language map, returns the input with no cache access and no provider call |
| TranslationLaws.CacheHitServed | src/services/translationService.ts:147-152 | a live non-empty cached translation is returned and nothing changes |
| TranslationLaws.TranslateTextMiss | src/services/translationService.ts:154-199 | on a miss the providers are asked in order up to the first accepted; its text is returned and cached for 30 days; with none accepted the input returns and nothing is written |
| TranslationLaws.TranslateTextNonEmpty | src/services/translationService.ts:129-200 | the result is empty only when the input is |
| TranslationLaws.TranslateTextTouchesOnlyItsKey | src/services/translationService.ts:147-199 | the storage changes at most under the text's own key |
| TranslationLaws.RepeatIsServedFromCache | src/services/translationService.ts:147-185 | asking again at the same time for a translated text returns it from the cache, with no provider call |
| TranslationLaws.FreshTranslationLasts | src/services/translationService.ts:147-185 | a translation fetched on a miss is served from the cache for the next 30 days (the 30-day lifetime is line 21) |
| TranslationLaws.OfflineTranslateText | src/services/translationService.ts:194-199 | with no reply and nothing cached, the input is returned and nothing is cached |
| TranslationLaws.OfflineTranslateAll | src/services/translationService.ts:229-240 | offline, every chunk comes back as itself |
| TranslationLaws.OfflineShortPost | src/services/translationService.ts:216-242 | offline, a post of at most 2000 units comes back as its 500-unit chunks concatenated with no separator |
| TranslationLaws.OfflineSmallPost | src/services/translationService.ts:226-242 | offline, a post of at most 500 units comes back trimmed, one space after each sentence end, or empty when blank |
| TranslationLaws.TokensOfAllFilterBlank | src/services/translationService.ts:256 | dropping blank paragraphs loses no word |
| TranslationLaws.OfflineAtom | src/services/translationService.ts:263-274 | offline, a paragraph's atom has the paragraph's words |
| TranslationLaws.OfflineAtoms | src/services/translationService.ts:259-285 | offline, the atoms together hold the paragraphs' words, in order |
| TranslationLaws.OfflineLongContentKeepsWords | src/services/translationService.ts:253-295 | offline, a long post keeps every word, in order |
| TranslationLaws.OneAtomPerParagraph | src/services/translationService.ts:259-285 | every non-blank paragraph yields exactly one atom |
| TranslationLaws.LongContentAtomCount | src/services/translationService.ts:256-287 | the atom count equals the number of non-blank paragraphs |
| TranslationLaws.TestTranslationVerdict | src/services/translationService.ts:393-424 | success exactly when the translation differs; the error is set exactly on failure; offline or into English it always reports the fallback |
| TranslationLaws.AvailableMethodsFacts | src/services/translationService.ts:466-487 | five methods: Google available exactly with a key, the four free APIs always available, in list order |
| TranslationLaws.ProbeFreeFacts | src/services/translationService.ts:448-460 | each free API is probed once, in order, with `Hello` into Korean from English, and reported available exactly when its request did not throw |
| TranslationLaws.CheckApiStatusFacts | src/services/translationService.ts:426-464 | Google is probed only with a key, and otherwise reported as having none; each then has one entry, available exactly when its request did not throw |
| LanguageSession.LookupFallback | src/contexts/LanguageContext.tsx:862 | `t(key)` yields a present non-empty entry, and otherwise the key; so never "" for a non-empty key |
| LanguageSession.LookupIsLocal | src/contexts/LanguageContext.tsx:862 | `t(key)` depends only on the current language's entry for that key |
| LanguageSession.DynamicRouting | src/contexts/LanguageContext.tsx:866-876 | English content is returned without the service; other languages go through `translateText` under their codes |
| LanguageSession.DynamicKeepsContent | src/contexts/LanguageContext.tsx:866-887 | dynamic translation never turns non-empty content into ""; offline it returns the content |
| LanguageSession.Session.constructor | src/contexts/LanguageContext.tsx:851-852 | the session starts in English and not translating |
| LanguageSession.Session.Mount | src/contexts/LanguageContext.tsx:889-892 | mounting sweeps the cache and asks no provider |
| LanguageSession.Session.SetLanguage | src/contexts/LanguageContext.tsx:851 | only the language changes |
| LanguageSession.Session.TranslateDynamicContent | src/contexts/LanguageContext.tsx:866-887 | English returns the content and never sets the flag; otherwise the flag is raised and then lowered, and result and service state follow `translateText` |
| LanguageSession.Session.T | src/contexts/LanguageContext.tsx:855-863 | non-empty dynamic content is translated; anything else is a dictionary lookup that changes nothing |
| BlogPostView.OneTranslationPerSentence | src/components/BlogPost.tsx:178-199 | every non-blank sentence yields exactly one translation |
| BlogPostView.SentenceCount | src/components/BlogPost.tsx:178-199 | the number of translated sentences is the number of non-blank sentence pieces |
| BlogPostView.OfflineSentences | src/components/BlogPost.tsx:182-199 | offline, the translated sentences hold the sentences' words, in order |
| BlogPostView.OfflineChunksKeepWords | src/components/BlogPost.tsx:173-208 | offline, the fallback keeps every word of the content, in order |
| BlogPostView.TitleRetranslationIsCached | src/components/BlogPost.tsx:107-137 | once the title test passed, the title's second translation is the cached one, so the "both unchanged" branch is unreachable |
| BlogPostView.TranslateContentOutcomes | src/components/BlogPost.tsx:95-170 | with no error both title and content differ from the originals; with an error the title test failed and the view is unchanged, or only the title was translated; never left translating |
| BlogPostView.AfterTestOutcomes | src/components/BlogPost.tsx:117-161 | after a passed title test the view ends not translating; it shows the new title and a changed post when there is no error, and with an error it either changed nothing or shows a changed title over the original post |
| BlogPostView.EnglishTestFails | src/components/BlogPost.tsx:107-115 | in English the title test fails, so only the error is raised |
| BlogPostView.OfflineKeepsView | src/components/BlogPost.tsx:107-115 | offline, the view keeps what it showed and raises the error |
| BlogPostView.LanguageChangeRules | src/components/BlogPost.tsx:82-93 | English restores the originals and clears both flags without the service; another language with no content changes nothing; with content the view ends not translating |
| BlogPostView.PostView.constructor | src/components/BlogPost.tsx:47-50 | the view starts on the originals, no error, not translating |
| BlogPostView.PostView.TranslateSentences | src/components/BlogPost.tsx:181-199 | the loop over the sentences equals `SentencesSpec`; blank ones are skipped |
| BlogPostView.PostView.TranslateContentInChunks | src/components/BlogPost.tsx:173-208 | the sentences are translated in order and joined with single spaces |
| BlogPostView.PostView.TranslateContent | src/components/BlogPost.tsx:95-170 | view and service state follow `TranslateContentSpec`; the flag is raised once, then lowered once, or twice after an early return because the `finally` clause runs too |
| BlogPostView.PostView.TranslateAfterTest | src/components/BlogPost.tsx:117-161 | after a passed title test, view and service state follow `AfterTestSpec`: the title is translated before the post |
| BlogPostView.PostView.TranslateAfterTitle | src/components/BlogPost.tsx:122-161 | with the new title known, the post is translated and the rest follows `AfterPostSpec` |
| BlogPostView.PostView.ShowPost | src/components/BlogPost.tsx:133-168 | neither changed: the error, with the flag lowered on the return and again in `finally`; only the post unchanged: the chunked fallback; otherwise both translations shown with no error |
| BlogPostView.PostView.ChunkFallback | src/components/BlogPost.tsx:141-153 | view and service state follow `ChunkedSpec`: the chunked translation is run once and its result decides the view |
| BlogPostView.PostView.ShowChunked | src/components/BlogPost.tsx:144-153 | a changed chunk result is shown with the new title and no error; an unchanged one shows the new title over the original post with the error raised |
| BlogPostView.PostView.OnLanguageChange | src/components/BlogPost.tsx:82-93 | view and service state follow `LanguageChangeSpec` |
| BlogPostView.PostView.ShowOriginal | src/components/BlogPost.tsx:326-331 | restores the original title and content and clears the error; the translating flag is unchanged |
| BlogManagement.TrimmedPieceIsTag | src/components/BlogManagement.tsx:126 | a trimmed, comma-free, non-blank piece is a well-formed tag |
| BlogManagement.ParsedTagsShape | src/components/BlogManagement.tsx:126 | parsed tags are non-empty, trimmed and comma-free, in the order of the comma pieces |
| BlogManagement.JoinCommaSpace | src/components/BlogManagement.tsx:93 | joining with `", "` is joining with `","` after a space is put before every tag but the first |
| BlogManagement.TrimSpaced | src/components/BlogManagement.tsx:126 | trimming a space-prefixed tag gives the tag (the join is line 93) |
| BlogManagement.TrimmedPiecesOfJoin | src/components/BlogManagement.tsx:126 | for well-formed tags, the trimmed comma pieces of their `", "` join are the tags (the join is line 93) |
| BlogManagement.ParseJoinedTags | src/components/BlogManagement.tsx:126 | parsing the edit form's `tags.join(', ')` gives back the tags when each is non-empty, trimmed and comma-free (the join is line 93) |
| BlogManagement.ParseNoTags | src/components/BlogManagement.tsx:126 | an empty tags field gives no tags, although splitting it on commas yields one empty piece |
| BlogManagement.SplitWs | src/components/BlogManagement.tsx:162 | `split(/\s+/)` yields at least one piece |
| BlogManagement.SplitWsOfTrimmed | src/components/BlogManagement.tsx:162 | on text with no whitespace at either end the pieces are exactly its words |
| BlogManagement.ReadMinutesFacts | src/components/BlogManagement.tsx:161-163 | the minutes are the ceiling of words/200: at most 200 words read in 1, and more words never read faster |
| BlogManagement.ReadTimeCountsWords | src/components/BlogManagement.tsx:160-165 | every content reads in at least one minute; trimmed content counts its words; the label reads back as that number |
| BlogManagement.SubmitRejectsIncomplete | src/components/BlogManagement.tsx:118-121 | an empty title, content or author only sets the error and issues no request |
| BlogManagement.SubmitIssuesOneRequest | src/components/BlogManagement.tsx:123-145 | a complete form sends one request: an update of the edited post by id, or a create, with the parsed tags and read time; a save clears the form, a failure keeps it and reports the error |
| BlogManagement.EditThenSubmit | src/components/BlogManagement.tsx:85-145 | editing a post and submitting it unchanged sends an update of that post with its own tags |
| BlogManagement.CreateAndCancelReset | src/components/BlogManagement.tsx:70-113 | create and cancel both clear all eight fields and the edited post; create sets creating, cancel clears it |
| BlogManagement.Editor.constructor | src/components/BlogManagement.tsx:32-46 | no posts, no error, nothing edited, an empty form, and no `loading` value set yet |
| BlogManagement.Editor.HandleCreatePost | src/components/BlogManagement.tsx:70-83 | the screen becomes `CreatePostSpec` of the old one; `loading` is not touched |
| BlogManagement.Editor.HandleEditPost | src/components/BlogManagement.tsx:85-98 | the screen holds the post and its form fields; `loading` is not touched |
| BlogManagement.Editor.HandleCancel | src/components/BlogManagement.tsx:100-113 | the screen becomes `CancelSpec` of the old one; `loading` is not touched |
| BlogManagement.Editor.FetchBlogPosts | src/components/BlogManagement.tsx:54-68 | the list is replaced only by a successful reply carrying an array; a failed query sets the error; `loading` is raised once and then lowered once, on every path |
| BlogManagement.DeclaredReplyKeepsPosts | src/components/BlogManagement.tsx:58-60 | a reply without a true `success` (the declared response type has no such field) never replaces the list; it only clears the error and ends loading |
| BlogManagement.Editor.HandleSubmit | src/components/BlogManagement.tsx:115-145 | the screen becomes `SubmitSpec` of the old one; `loading` is raised and lowered once, by the refresh, exactly when the form is complete and the save succeeds |
| Blog.AllCategoriesFacts | src/pages/Blog.tsx:48 | the categories have no repeats and no empty value, are exactly the names some post carries, and are listed in the order the posts first name them: for i < j, the first post naming category i comes before the first post naming category j (`InFirstOccurrenceOrder`), which together with no repeats fixes the list as `[...new Set(...)]` builds it |
| Blog.FilteredPostsFacts | src/pages/Blog.tsx:51-56 | the shown posts are the order-preserving selection of those matching the search in title or excerpt, ignoring case, and the selected category |
| Blog.EmptyFilterKeepsAll | src/pages/Blog.tsx:51-56 | no search term and no category show every post, in order |
| Blog.BlogPage.constructor | src/pages/Blog.tsx:12-15 | nothing selected, no filter, not loading |
| Blog.BlogPage.HandlePostSelect | src/pages/Blog.tsx:58-86 | the fetched full post is selected, or the list post when the fetch found none or failed; loading is raised then lowered |
| Blog.BlogPage.HandleBackToList | src/pages/Blog.tsx:88-92 | clears the selection, the search and the category, so every post is shown again |
| Store.PassesIff | src/pages/Store.tsx:122-129 | a product passes exactly when it is in stock or hiding is off, matches the search ignoring case, has the category unless `all`, and is priced within the inclusive range |
| Store.FilteredIsSelection | src/pages/Store.tsx:122-129 | the result is the order-preserving selection of exactly the passing products |
| Store.InitialShowsAll | src/pages/Store.tsx:22-111 | the initial filters show all eight products |
| Store.SearchIgnoresCase | src/pages/Store.tsx:124-125 | a lower-case search matches the upper-case product codes |
| Store.PriceRangeExcludes | src/pages/Store.tsx:127 | a minimum price above the dearest product hides every product |
| ProductDetails.FindTier | src/pages/ProductDetails.tsx:54-56 | the first tier whose range holds the quantity, or -1 when none does |
| ProductDetails.ListedTiers | src/pages/ProductDetails.tsx:39-43 | 1-5, 6-20 and 21-50 select the three tiers; anything else selects none |
| ProductDetails.TypedQuantity | src/pages/ProductDetails.tsx:188 | the quantity is never 0, and it is either the parsed number or one pack |
| ProductDetails.QuantityChangeRules | src/pages/ProductDetails.tsx:50-61 | a quantity below one pack is ignored; an accepted one selects its tier, or keeps the tier when none matches |
| ProductDetails.QuantityChangeKeepsValid | src/pages/ProductDetails.tsx:50-61 | the quantity stays at least one pack and the tier stays a listed one |
| ProductDetails.PriceFollowsQuantity | src/pages/ProductDetails.tsx:50-69 | within 1-50 the unit price is 2500, 2300 or 2100 by tier, and the total is price times quantity |
| ProductDetails.TierCanDisagreeWithQuantity | src/pages/ProductDetails.tsx:241 | the radio can select the 21-50 tier for one unit, which then costs 2100 |
| ProductDetails.QuoteForm.constructor | src/pages/ProductDetails.tsx:28-29 | quantity 1, first tier |
| ProductDetails.QuoteForm.HandleQuantityChange | src/pages/ProductDetails.tsx:50-61 | the form follows `QuantityChange` |
| ProductDetails.QuoteForm.Decrement | src/pages/ProductDetails.tsx:173-174 | the disabled minus button changes nothing; otherwise one pack less |
| ProductDetails.QuoteForm.Increment | src/pages/ProductDetails.tsx:196 | one pack more |
| ProductDetails.QuoteForm.TypeQuantity | src/pages/ProductDetails.tsx:188 | the typed quantity, or one pack |
| ProductDetails.QuoteForm.SelectTier | src/pages/ProductDetails.tsx:241 | the tier is set and the quantity is untouched |
| CyclicIndex.JsRem | src/components/sections/BannerCarousel.tsx:71-75 | the remainder takes the sign of the dividend and is smaller in size than the divisor |
| CyclicIndex.StepsStayInRange | src/components/sections/BannerCarousel.tsx:70-76 | both steps keep the index in `[0, n)` |
| CyclicIndex.StepsWrap | src/components/sections/BannerCarousel.tsx:70-76 | next wraps from the last index to 0; previous wraps from 0 to the last |
| CyclicIndex.StepsAreInverse | src/components/sections/BannerCarousel.tsx:70-76 | previous and next undo each other |
| CyclicIndex.AdvanceRotates | src/components/sections/BannerCarousel.tsx:64-71 | up to `n` next steps rotate the index, wrapping past `n - 1` |
| CyclicIndex.FullCycle | src/components/sections/BannerCarousel.tsx:64-71 | `n` next steps return to the start |
| BannerCarousel.Tick | src/components/sections/BannerCarousel.tsx:60-68 | a tick never changes whether autoplay is on |
| BannerCarousel.TicksAdvance | src/components/sections/BannerCarousel.tsx:60-68 | while playing, `k` ticks are `k` next steps; while paused they change nothing |
| BannerCarousel.AutoplayCycles | src/components/sections/BannerCarousel.tsx:60-68 | four ticks while playing return to the starting slide |
| BannerCarousel.Banner.constructor | src/components/sections/BannerCarousel.tsx:18-19 | first slide, playing |
| BannerCarousel.Banner.NextSlide | src/components/sections/BannerCarousel.tsx:70-72 | the slide advances cyclically; play state unchanged |
| BannerCarousel.Banner.PrevSlide | src/components/sections/BannerCarousel.tsx:74-76 | the slide steps back cyclically; play state unchanged |
| BannerCarousel.Banner.GoToSlide | src/components/sections/BannerCarousel.tsx:78-80 | sets exactly the given index, unchecked |
| BannerCarousel.Banner.TogglePlayPause | src/components/sections/BannerCarousel.tsx:82-84 | flips autoplay and keeps the slide |
| BannerCarousel.Banner.AutoplayTick | src/components/sections/BannerCarousel.tsx:63-65 | one interval callback is one tick |
| TopBrands.Period | src/components/sections/TopBrandsSection.tsx:89 | the period is at least one, and `len - 6` for more than seven brands |
| TopBrands.Clamp | src/components/sections/TopBrandsSection.tsx:96 | `slice` bounds land within the array |
| TopBrands.ListedPeriod | src/components/sections/TopBrandsSection.tsx:21-89 | the eight listed brands cycle through two positions |
| TopBrands.ShortListIsFixed | src/components/sections/TopBrandsSection.tsx:89-93 | with seven brands or fewer the strip never moves |
| TopBrands.WindowShape | src/components/sections/TopBrandsSection.tsx:96 | at each reachable position the window is the contiguous run of six brands from it, or the whole list when it is shorter |
| TopBrands.LastBrandNeverShown | src/components/sections/TopBrandsSection.tsx:89-96 | the last listed brand is in no window |
| TopBrands.BrandStrip.constructor | src/components/sections/TopBrandsSection.tsx:19 | starts at position 0 |
| TopBrands.BrandStrip.NextSlide | src/components/sections/TopBrandsSection.tsx:88-90 | advances cyclically modulo the period |
| TopBrands.BrandStrip.PrevSlide | src/components/sections/TopBrandsSection.tsx:92-94 | steps back cyclically modulo the period |
| TranslationStatus.HealthThresholds | src/components/TranslationStatus.tsx:62-67 | 0 entries is empty, 1-9 good, 10-49 moderate, 50 or more high |
| TranslationStatus.HealthMonotone | src/components/TranslationStatus.tsx:62-67 | more entries never mean a healthier level |
| TranslationStatus.HealthPresentation | src/components/TranslationStatus.tsx:69-87 | the four levels get distinct colours and label keys; any other value gets grey and the `unknown` key |
| TranslationStatus.StatusPanel.constructor | src/components/TranslationStatus.tsx:28-34 | mounting reads the statistics once; not cleaning, no last sweep |
| TranslationStatus.StatusPanel.HandleCleanupCache | src/components/TranslationStatus.tsx:41-52 | sweeps, then refreshes the statistics of the swept cache, then records the time; the flag is raised then lowered |

## Left out

- HTTP: `fetch`, URLs, headers and request bodies of the five providers are not modelled. A reply is an input: a network error, or a status with a JSON body flattened to its field paths, or a body that does not parse.
- `tryLibreTranslate` and `tryMyMemoryAPI` (src/services/translationService.ts:489-528): nothing calls them, so they are not modelled.
- The `default` branch of the field selection in `tryTranslationAPI` is not modelled: every listed API has its own case, so it cannot be reached.
- Concurrency: `Promise.all` is modelled as translating one chunk after another, so a chunk sees the cache writes of the chunks before it. The result order is the same either way.
- BlogPostView.PostView.OnLanguageChange, BlogPostView.PostView.TranslateContent, LanguageSession.Session.TranslateDynamicContent: each async handler runs to completion before the next one starts. The interleaving of overlapping runs is not modelled. Two consequences in the source go uncaptured. A late result can land after a language change: a Korean translation still pending when the language switches to English overwrites the originals just restored. A shared busy flag can be lowered early: when two `translateDynamicContent` calls overlap, the first one's `finally` lowers `isTranslating` while the second is still pending.
- Clock: one `now` stands for every `Date.now()` reading during a call; time is not modelled passing inside a call.
- `localStorage` exceptions: a full store (`setItem` throwing a quota error), and the outer `catch` blocks of `cleanupCache` and `getCacheStats`, are not modelled.
- `catch` branches of callers of `translateText` are not modelled: `translateText` catches everything itself and never throws. This covers src/services/translationService.ts:235-238 and the catches at src/contexts/LanguageContext.tsx:881-884 and src/components/BlogPost.tsx:161-166, 194-197 and 205-208.
- BlogManagement.FetchSpec: the reply's `success` is an input, although the declared `BlogApiResponse` type has no `success` field; under that type the list is never replaced (`BlogManagement.DeclaredReplyKeepsPosts`), so the replacing case describes a server that sends more than the type declares.
- TranslationCache.Slot: a stored value is a cache entry or an unparsable string. A value that parses as JSON but lacks `expiresAt` (the source serves it, since `Date.now() > undefined` is false, and the sweep keeps it) cannot be represented; the program's own writes never produce one.
- Providers.Body: a JSON `null` body (a `TypeError` in the source) and a non-string response field (a number is truthy in the source) cannot be represented; a body is a map from field paths to strings, or one that does not parse.
- Console logging is not modelled, nor are `window.scrollTo`, the `setInterval` timer (modelled as a tick method), `toFixed`, `toLocaleString` and `formatBytes`.
- JsStrings.Lower: lower-cases ASCII only; JavaScript's full Unicode `toLowerCase` is not modelled, so `Store` and `Blog` searches on non-ASCII text are weaker than the source.
- JsStrings.CodeUnits: strings are sequences of Unicode scalar values, so a lone surrogate cannot be represented.
- The `LANGUAGE_MAP` and dictionary lookups do not model keys inherited from `Object.prototype` (such as `constructor`); only the listed entries are present.
- The dictionary body (src/contexts/LanguageContext.tsx:16-848) is not part of this model; the dictionary is an input.
- The environment lookup for the Google key (src/config/env.ts) is not part of this model; the key is an input string.
- The `parallel` and `smart` strategies (src/config/translationConfig.ts) are not modelled: nothing implements them.
- The blog back end: the functions of `src/services/blogService.ts` and `src/hooks/useBlog.ts` are not part of this model. The result of `fetchPostBySlug` (a post, `null`, or a throw) is an optional post. The result of the save in `handleSubmit` is a boolean.
- `handleDeletePost` and `handleInputChange` in src/components/BlogManagement.tsx are not modelled; they are only UI wiring.
- Fields the editor reads but the `BlogPost` type does not declare (`author`, `tags`, `category`, `featuredImage`, `metaDescription`) are modelled as present, as the code uses them.
- `TranslationStatus` passes an object to `t` at src/components/TranslationStatus.tsx:219; that rendering is left out.
- Prices are whole numbers; the two-decimal formatting of the total is left out.
- Rendering, animation, theming and the 3D scene are not modelled.
