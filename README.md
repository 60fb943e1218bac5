# Roman Translator session model

Roman Translator is a browser client. It translates typed or dictated text through a remote
language model and reads the result aloud in an expressive synthesized voice. Without a
network it falls back to a small offline phrasebook. This project models the client's
session logic in Dafny and proves properties of that model:

- `text.dfy` (module `Text`): the string primitives the session uses. `Trim` is ECMAScript
  `trim`, with the exact WhiteSpace and LineTerminator set. `Lower` is `toLowerCase` over
  ASCII letters. There are prefix, suffix and substring relations for stating what a
  prompt contains.
- `types.dfy` (module `Types`): the records and constant tables of `types.ts`. These are
  the `Emotion` enum, voices, history items, the `TranslationState` record, the language
  table and the offline phrasebook as a nested finite map.
- `gemini_service.dfy` (module `GeminiService`): the prompt strings that `translateText`
  and `generateExpressiveSpeech` send, how the reply text becomes a translation, and the
  rule that a speech reply without inline audio data is an error.
- `app.dfy` (module `App`): the session of `App.tsx`. It has two parts.
  - Pure rules: the phrasebook lookup of the lower-cased, trimmed text; the code-to-name
    lookup of languages; the history push capped at 20; the swap button; the voice filter.
  - A class `Session`: it holds the state record, the error banner, the current audio
    source node and whether an audio context exists. It also has a constant phrasebook
    field, which the constructor sets to `OFFLINE_DICTIONARY`. It has one method per event. Each
    handler that awaits is split in two. The part before the `await` returns the request
    it sends. Completion is a separate method. The translation completion takes that
    request back as a parameter, because the history item it records is built from the
    text and languages read at click time; so the model can express any order of
    completions. The speech completion reads nothing from the click-time state, so it
    takes only the reply and the object URL. The speech axis
    invariant `Valid()` says synthesizing and speaking never hold together. Every event
    preserves it.

Two scenario methods at the end of `app.dfy` show what a caller can conclude from the
contracts alone. The second shows one interleaving the source allows. Stop is pressed after
the audio URL is shown but before the decoded buffer starts. The playback that follows
then runs with `isSpeaking` false, and `audioSource` points at the new node.

The model follows the code in these places, which a reader might not expect:
- The previous object URL is never revoked when a new one replaces it.
- The audio URL stays set when decoding the audio fails after the URL was shown.
- An offline phrasebook hit does not clear an earlier error.
- `handleTranslate` itself does not refuse a second request while one is in flight. Only
  the disabled button does that, so the methods have no such precondition.

## Model

| member | source | states |
|---|---|---|
| `Text.TrimStart` | App.tsx:110-111 | the result is a suffix of the input, everything cut off before it is white space, and it is empty or starts with a character that is not white space |
| `Text.TrimEnd` | App.tsx:110-111 | the result is a prefix of the input, everything cut off after it is white space, and it is empty or ends with a character that is not white space |
| `Text.Trim` | App.tsx:110-111 | the result is empty exactly when the input is all white space; otherwise it starts and ends with a character that is not white space |
| `Text.TrimStartOfPadded` | App.tsx:111 | leading white space in front of a string that does not start with white space is removed, and nothing else |
| `Text.TrimEndOfPadded` | App.tsx:111 | trailing white space after a string that does not end with white space is removed, and nothing else |
| `Text.TrimOfPadded` | App.tsx:111 | trimming white space padding off a string whose ends are not white space gives that string back |
| `Text.TrimIdempotent` | App.tsx:110-111 | trimming twice is trimming once |
| `Text.LowerCharOfUpper` | App.tsx:111 | an upper-case ASCII letter lowers to the letter at the same place of the lower-case alphabet |
| `Text.Lower` | App.tsx:111 | the lower-cased string has the same length and no upper-case ASCII letter; a character changes exactly when it is an upper-case letter, and then it becomes the letter at the same place of the lower-case alphabet |
| `Text.LowerIdempotent` | App.tsx:111 | lowering twice is lowering once |
| `Text.LowerKeepsAllWhiteSpace` | App.tsx:111 | lowering the case of an all-white-space string leaves it all white space |
| `Text.TrimStartLower` | App.tsx:111 | removing leading white space commutes with lowering the case |
| `Text.TrimEndLower` | App.tsx:111 | removing trailing white space commutes with lowering the case |
| `Text.TrimLowerCommute` | App.tsx:111 | `toLowerCase().trim()` equals `trim().toLowerCase()` |
| `Types.EmotionLabel` | types.ts:2-9 | the string value of each enum member; specified by `Types.EmotionLabelsDistinct` and `GeminiService.LoweredLabelsDistinct` |
| `Types.EmotionLabelsDistinct` | types.ts:2-9 | different emotions have different string values |
| `Types.AllVoicesMale` | types.ts:29-33 | every voice in `VOICES` is tagged male |
| `Types.VoiceNamesDistinct` | types.ts:29-33 | voice names are pairwise distinct |
| `Types.LanguageCodesDistinct` | types.ts:52-61 | language codes are pairwise distinct |
| `Types.LanguageNamesNonEmpty` | types.ts:52-61 | every language has a non-empty display name |
| `Types.DictionaryTargets` | types.ts:64-69 | every phrasebook entry translates into exactly bn, es and fr |
| `Types.DictionaryValuesNonEmpty` | types.ts:64-69 | every phrasebook translation is a non-empty string |
| `GeminiService.TranslationPrompt` | services/geminiService.ts:11-13 | the translation prompt template; specified by `GeminiService.TranslationPromptMentions` and `GeminiService.TranslationPromptInjective` |
| `GeminiService.TranslationPromptMentions` | services/geminiService.ts:11-13 | the translation prompt contains the source and target language names and ends with `Text: ` followed by the text |
| `GeminiService.TranslationPromptInjective` | services/geminiService.ts:11-13 | for a fixed language pair, different texts give different translation prompts |
| `GeminiService.TranslationResult` | services/geminiService.ts:16 | a missing or empty reply text becomes the empty translation; any other reply text is the translation |
| `GeminiService.SpeechPrompt` | services/geminiService.ts:29-33 | the normal and the news-presenter speech prompt; specified by `GeminiService.NewsModeIgnoresEmotion`, `GeminiService.SpeechPromptEndsWithQuotedText`, `GeminiService.NormalPromptMentionsEmotion`, `GeminiService.NormalPromptDistinguishesEmotions` and `GeminiService.SpeechPromptInjective` |
| `GeminiService.NewsModeIgnoresEmotion` | services/geminiService.ts:31-33 | in news mode the speech prompt is the same for every emotion |
| `GeminiService.SpeechPromptEndsWithQuotedText` | services/geminiService.ts:29-33 | in both modes the speech prompt names the language and ends with the text in double quotes |
| `GeminiService.NormalPromptMentionsEmotion` | services/geminiService.ts:29 | outside news mode the prompt contains the lower-cased emotion |
| `GeminiService.LoweredLabelsDistinct` | services/geminiService.ts:29 | different emotions remain different after `toLowerCase` |
| `GeminiService.NormalPromptDistinguishesEmotions` | services/geminiService.ts:29 | outside news mode different emotions give different prompts |
| `GeminiService.SpeechPromptInjective` | services/geminiService.ts:29-33 | for fixed settings, different texts give different speech prompts |
| `GeminiService.FirstInlineData` | services/geminiService.ts:48 | the optional chain down to the first part's inline data; specified by `GeminiService.AudioPayloadOfResponse` and `GeminiService.AudioPayloadMissing` |
| `GeminiService.AudioPayload` | services/geminiService.ts:48-51 | succeeds exactly when the first inline data of the reply is present and non-empty, and then returns it; otherwise fails with the no-audio message |
| `GeminiService.AudioPayloadOfResponse` | services/geminiService.ts:48-51 | a reply carrying a non-empty payload in its first part yields exactly that payload |
| `GeminiService.AudioPayloadMissing` | services/geminiService.ts:48-49 | the reply is the no-audio error exactly when some link of the chain is missing (candidates, the first candidate, its content, its parts, the first part, its inline data, the data) or the data is empty |
| `App.PhrasebookEntry` | App.tsx:114-115 | a truthy entry of a phrasebook; specified by `App.PhrasebookEntryOfKey`, `App.OfflineMissesUnlistedTarget` and `App.OfflineMissesOtherTargets` |
| `App.PhraseLookup` | App.tsx:111-115 | the entry for the lower-cased, trimmed text; specified by `App.OfflineHitsPaddedKey`, `App.OfflineHitsEveryEntry` and `App.OfflineHitNotBlank` |
| `App.OfflineTranslation` | App.tsx:111-115 | the lookup in the built-in phrasebook; specified by `App.OfflineHitsPaddedKey`, `App.OfflineHitsEveryEntry`, `App.OfflineHitNotBlank` and `App.OfflineMissesUnlistedTarget` |
| `App.DictionaryKeysNormalised` | types.ts:64-69 | every phrasebook key is non-empty, has no white space at either end, and is a fixed point of lower-casing and trimming |
| `App.KeyNormalised` | App.tsx:111-114 | a lower-case string whose ends are not white space is unchanged by `toLowerCase().trim()` |
| `App.PhrasebookEntryOfKey` | App.tsx:114-115 | a phrasebook key and a target it lists give that entry |
| `App.OfflineHitsPaddedKey` | App.tsx:111-115 | any ASCII casing of a phrasebook key, with any white space around it, finds that key's entry |
| `App.OfflineHitsEveryEntry` | App.tsx:111-115 | every phrasebook entry is found by typing its key |
| `App.OfflineHello` | types.ts:65 | offline, "hello" translates to the fixed Bengali phrase for bn and to "Hola" for es |
| `App.OfflineHelloPadded` | App.tsx:111-115 | offline, " Hello " finds the Bengali entry for "hello" |
| `App.OfflineHitNotBlank` | App.tsx:110-115 | a phrasebook hit needs text that is not blank after trimming, so the blank-input guard never hides an entry |
| `App.OfflineMissesUnlistedTarget` | App.tsx:113-119 | offline translation into any target other than bn, es and fr misses, whatever the text |
| `App.OfflineMissesOtherTargets` | App.tsx:113-119 | offline translation into en, de, hi, ja or ar always misses |
| `App.FindLanguage` | App.tsx:128-129 | finds nothing exactly when no entry has the code; otherwise returns the first entry with that code |
| `App.FindListedLanguage` | App.tsx:128-129 | in a table without repeated codes, looking up a listed code finds exactly that entry |
| `App.LanguageName` | App.tsx:128-129 | the name sent for a code; specified by `App.LanguageNameOfListed` and `App.LanguageNameOfUnlisted` |
| `App.LanguageNameOfListed` | App.tsx:128-129 | each listed code is sent as the name of its own language |
| `App.LanguageNameOfUnlisted` | App.tsx:128-129 | a code missing from the table is sent as it is |
| `App.SpeechLanguage` | App.tsx:172 | the language named in the speech prompt; specified by `App.SpeechLanguageRule` |
| `App.SpeechLanguageRule` | App.tsx:172 | the speech prompt names "Bengali" exactly for the target bn; every other target, Spanish and French included, is named "English" |
| `App.PushHistory` | App.tsx:145 | the new history has length min(old + 1, 20), the new item at index 0, and the old items after it in their order |
| `App.PushHistoryEvictsOldest` | App.tsx:145 | pushing onto a history of 20 drops exactly the last (oldest) item |
| `App.PushIsNewest` | App.tsx:145 | one push is the newest 20 of the new item followed by the history |
| `App.NewestOfNewest` | App.tsx:145 | truncating to 20 before or after prepending gives the same result |
| `App.PushAllKeepsNewest` | App.tsx:141-146 | after any run of translations the history is the newest 20 of the new items, newest first, followed by the earlier history |
| `App.PushAllBounded` | App.tsx:145 | a history of at most 20 items stays at most 20 items through any run of translations |
| `App.Swapped` | App.tsx:222 | the swap button's update; specified by `App.SwapExchanges` and `App.SwapInvolution` |
| `App.SwapExchanges` | App.tsx:222 | the swap exchanges source and target language and original and translated text, and changes nothing else |
| `App.SwapInvolution` | App.tsx:222 | swapping twice gives back the original state |
| `App.FilterVoices` | App.tsx:195 | the filtered list holds only voices of the gender, drawn from the input, and every voice of that gender; `App.FilterVoicesAppend` fixes their order |
| `App.FilterVoicesSingle` | App.tsx:195 | a single voice is kept exactly when it has the gender |
| `App.FilterVoicesAppend` | App.tsx:195 | filtering a concatenation is the concatenation of the filtered parts, so the matching voices keep their input order and multiplicity |
| `App.FilterVoicesKeepsAll` | App.tsx:195 | when every voice has the gender, filtering returns the list unchanged |
| `App.VoiceFilterByGender` | App.tsx:195 | filtering `VOICES` by male gives all of them and by female gives none |
| `App.Session.constructor` | App.tsx:9-27 | the initial record: empty texts, en to bn, all flags false, no audio URL, Neutral, Puck, male, news mode off, the saved history, the connectivity at start; no error, no source node, no audio context; the session reads the built-in phrasebook |
| `App.Session.Valid` | App.tsx:161-192 | the speech invariant: synthesizing and speaking never hold together; the constructor establishes it and every event method keeps it |
| `App.Session.FilteredVoices` | App.tsx:195 | the voices offered are exactly the voices of the selected gender |
| `App.Session.TranslateOffline` | App.tsx:111-120 | a hit for the lower-cased, trimmed text in the session's phrasebook changes only `translatedText`, to the entry; a miss changes only the error, to the offline message |
| `App.Session.StartTranslation` | App.tsx:122-130 | sets `isTranslating`, clears `audioUrl`, `translatedText` and the error, changes nothing else, and returns the request with the text, the codes and the prompt with the language names |
| `App.Session.HandleTranslate` | App.tsx:109-130 | blank input (after trim) changes nothing. Offline: a hit changes only `translatedText`; a miss changes only the error, to the offline message. No request is sent offline. Online: `isTranslating` is set, `audioUrl` and `translatedText` are cleared, the error is cleared, and the request holds the text, the codes and the prompt with the language names |
| `App.Session.OnTranslationSucceeded` | App.tsx:126-146 | shows the reply text, clears `isTranslating`, and pushes a history item made from the request, the reply, the id and the timestamp; nothing else changes |
| `App.Session.OnTranslationFailed` | App.tsx:147-150 | sets the translation-failed error and clears `isTranslating`; history and text keep their in-flight values |
| `App.Session.StopAudio` | App.tsx:153-159 | returns the node that was playing, forgets it and clears `isSpeaking`; nothing else changes |
| `App.Session.HandleSpeak` | App.tsx:161-175 | no-op without a translation or offline. While speaking it only stops, as `StopAudio`, and sends nothing. Otherwise it sets `isGeneratingSpeech`, clears the error and returns the request with the text, the spoken language, the voice and the prompt |
| `App.Session.OnSpeechResponse` | App.tsx:169-181 | a reply without audio takes the failure path. Otherwise it sets the audio URL, moves from synthesizing to speaking, creates the audio context and returns the payload |
| `App.Session.OnSpeechFailed` | App.tsx:189-192 | sets the synthesis-failed error and clears both speech flags; the audio URL and the node stay |
| `App.Session.OnPlaybackStarted` | App.tsx:182-188 | the new node becomes the current source; the state record does not change |
| `App.Session.OnPlaybackEnded` | App.tsx:186 | clears `isSpeaking` and keeps the node reference |
| `App.Session.OnOnline` | App.tsx:39 | sets `isOnline`; nothing else changes |
| `App.Session.OnOffline` | App.tsx:40 | clears `isOnline`; nothing else changes |
| `App.Session.Swap` | App.tsx:222 | the state becomes its swap |
| `App.Session.SetOriginalText` | App.tsx:232 | replaces only the input text |
| `App.Session.SetSourceLang` | App.tsx:219 | replaces only the source language |
| `App.Session.SetTargetLang` | App.tsx:225 | replaces only the target language |
| `App.Session.SelectGender` | App.tsx:252-253 | replaces only the selected gender |
| `App.Session.ToggleNewsMode` | App.tsx:255 | flips only news mode |
| `App.Session.SelectVoice` | App.tsx:258 | replaces only the selected voice |

## Left out

- `utils/audioUtils` (`decodeBase64`, `createWavBlob`, `decodeAudioData`) is not part of this model. Its source is not available. The object URL of the WAV blob is a parameter of `OnSpeechResponse`. A failure to decode the payload or the audio is the `OnSpeechFailed` event.
- The network calls to the generative model are left out. Their outcomes are events: the reply text, the speech reply, or a rejection.
- `crypto.randomUUID()` and `Date.now()` are parameters of `OnTranslationSucceeded`.
- The Web Audio platform is reduced to identities. Playback nodes are handles (`SourceHandle`). Creating, connecting and stopping nodes, and the platform's `ended` event, are the inputs and outputs of the methods.
- Persistence of the history in `localStorage` is left out, because it is I/O. The saved history is a constructor parameter.
- Speech recognition is left out, because it is platform glue: setup, the transcript loop in `onresult`, errors, and `toggleListening`. Its effect on the state is the same as `SetOriginalText`.
- The install prompt is left out, because it is platform glue.
- The rendered markup is left out, apart from the state updates of its handlers. The disabled buttons are not preconditions, so the model also covers the calls they prevent (a second translate, choosing the female voice gender).
- `Text.Lower`: models `toLowerCase` on ASCII letters only. Full Unicode case mapping is not modelled. For example, the Kelvin sign lower-cases to `k`, so an input with it can reach "thank you" in the source but not in the model.
- `App.PhrasebookEntry`: does not model property lookups inherited from JavaScript's `Object.prototype` (such as `constructor`). Language codes only ever come from the language table, which has no such names.
- React's batching of state updates is not modelled. Each method applies its update at once, and the next event observes it.
