# KTM Transcriber front end: a Dafny model

This project models the logic of the KTM Transcriber browser front end.
The user picks an audio or video file, or types a URL. They set a few
transcription options, and the application shows a loading screen and then
the transcript or a failure. The model covers:

- **Prompt compiler** (`services/geminiService.ts`, `buildPrompt`). The
  prompt is a list of clauses: a base sentence naming the language, exactly
  one punctuation sentence, optional sentences for speaker labels,
  timestamps, profanity censoring and the trimmed custom vocabulary, the
  Markdown instruction, and an optional summary request. `Prompt.Decode`
  reads the options back from a clause list, and both round-trip directions
  are proved. On the clause list the model proves which clauses are
  present and absent, their order and the last clause. On the rendered
  string it proves that every emitted clause's sentence occurs, how the
  string begins and how it ends. The fixed sentences sit in one `Prompt.Wording` record.
- **File service** (`transcribeFile`). It covers the model-name fallback,
  the request sent, and the mapping of every caught error to a string that
  starts with `Transcription Failed:`. `Service.ParseFailure` reads such a
  string back into the error's kind. The remote generative-model call is a
  parameter `remote` that either answers with text or throws.
- **URL stand-in** (`transcribeUrl`). This is the Markdown mock report,
  modelled as its 17 lines joined by line feeds. The fixed texts of the
  report sit in one `UrlReport.Template` record. `UrlReport.ReadBack`
  recovers the URL and every echoed setting from those lines.
- **Input panel** (`components/MainScreen.tsx`). This is the state machine
  over `{url, file, error}`: the 50 MB size check, the mutual exclusion of
  file and URL, and the Transcribe button's click and disabled condition.
  It also covers the single-field settings edit.
- **Loading view helpers** (`components/LoadingScreen.tsx`). These are the
  source description, with URLs longer than 60 characters shortened, and
  the rotation of the six status messages.
- **Screen controller** (`App.tsx`). It is the `MAIN → LOADING → RESULT →
  MAIN` machine. `handleTranscribe` is split into `Begin` (before the await)
  and `Settle` (after it, including the `finally`). The model includes the
  result normalisation by failure marker, the catch path, `resetToMain`,
  the settings change and `renderContent`. An invariant is proved over
  every reachable state.
- **Shared records and constants** (`types.ts`, `constants.ts`). These are
  the datatypes in `Types` and the constants in `Constants`.

Strings are `seq<char>`. `Strings.Trim` removes exactly the characters
JavaScript's `trim` removes: the ECMAScript WhiteSpace and LineTerminator
code points.

## Model

| member | source | states |
|---|---|---|
| Strings.Trim | services/geminiService.ts:45-46 | `trim()` yields a contiguous block of the input with only whitespace before and after it, and the block neither starts nor ends with whitespace |
| Strings.TrimEmptyIff | services/geminiService.ts:45 | the trimmed vocabulary is empty (falsy) exactly when the vocabulary is all whitespace |
| Strings.TrimIdempotent | services/geminiService.ts:46 | trimming the already trimmed vocabulary changes nothing |
| Constants.MaxFileSize | constants.ts:33-34 | the byte limit is 50 × 1024 × 1024 = 52428800 |
| Constants.OptionKeysDistinct | constants.ts:3-20 | the nine language codes and the two model names are pairwise distinct, so they can serve as option keys |
| Prompt.Clauses | services/geminiService.ts:24-25 | the prompt always has at least three clauses and opens with the base sentence for the configured language |
| Prompt.ClausesMembers | services/geminiService.ts:27-53 | exactly one punctuation clause, of the configured polarity. The speaker, timestamp and profanity clauses are each present iff their switch is on. A vocabulary clause is present iff the trimmed vocabulary is non-empty, and it carries that text. The Markdown clause is always present. The summary clause is present iff requested, and the summary request (else the Markdown clause) is last |
| Prompt.ClausesInOrder | services/geminiService.ts:24-53 | the clauses follow the fixed order base, punctuation, speakers, timestamps, profanity, vocabulary, Markdown, summary, each kind at most once |
| Prompt.DecodeClauses | services/geminiService.ts:24-56 | the options the prompt depends on are recovered from the clauses emitted for them |
| Prompt.DecodeSound | services/geminiService.ts:24-56 | the reader accepts only clause lists the compiler emits, and for those it returns options that emit that very list |
| Prompt.ClausesInjective | services/geminiService.ts:24-56 | different prompt options (trimmed vocabulary, no model) never give the same clause list |
| Prompt.PromptStartsWithBase | services/geminiService.ts:25 | the prompt text starts with "Transcribe the following audio/video content. The primary language is " + language + "." |
| Prompt.PromptContainsClauses | services/geminiService.ts:24-55 | the text of every emitted clause occurs in the prompt text |
| Prompt.PromptContainsEnabledClauses | services/geminiService.ts:27-49 | the prompt text contains the punctuation sentence of the configured polarity, the sentence of every switched-on option, the vocabulary sentence with the trimmed words when they are non-empty, and the Markdown sentence |
| Prompt.PromptEnding | services/geminiService.ts:49-55 | with a summary the prompt ends with the Markdown sentence followed by the "\n\n"-prefixed summary request; without one it ends with the Markdown sentence |
| Prompt.VocabularyOnlyTrimmedMatters | services/geminiService.ts:45-47 | vocabularies with the same trimmed text give the same prompt |
| Prompt.WhitespaceVocabularyIgnored | services/geminiService.ts:45-47 | an all-whitespace vocabulary gives the same prompt as an empty one, with no vocabulary clause |
| Service.ResolveModel | services/geminiService.ts:61 | the model sent always starts with "gemini". It is the configured model when that starts with "gemini", and "gemini-2.5-flash" otherwise. There is no error case |
| Service.ResolveModelIdempotent | services/geminiService.ts:61 | resolving an already resolved model changes nothing |
| Service.ListedModels | constants.ts:15-20 | the default model is listed first and is sent unchanged; the placeholder "aura-hf" is replaced by the fallback, as the comment promises |
| Service.DefaultPrompt | constants.ts:22-31 | under the defaults the prompt asks for en-US with punctuation, speaker labels and censoring, then Markdown, with no timestamps, vocabulary or summary |
| Service.FileRequest | services/geminiService.ts:58-71 | the request carries a "gemini" model, the configured one when it qualifies, and the prompt `buildPrompt` makes for the settings, together with the file |
| Service.FailureText | services/geminiService.ts:74-80 | every caught value maps to a text starting with "Transcription Failed:". It is the fixed invalid-key text exactly when an `Error` whose message contains "API key not valid" was caught. Otherwise it is the unexpected-error prefix followed by the message, or "Unknown error" for a non-`Error` |
| Service.FailureTextsMarked | services/geminiService.ts:76-79 | both the invalid-key text and the unexpected-error prefix start with "Transcription Failed:" |
| Service.UnexpectedIsNotInvalidKey | services/geminiService.ts:76-79 | no unexpected-error text coincides with the invalid-key text |
| Service.ParseFailureText | services/geminiService.ts:76-79 | the failure text reads back as exactly the error's kind and detail |
| Service.ParsedFailuresAreMarked | services/geminiService.ts:76-79 | every text the failure reader accepts starts with the failure marker |
| Service.TranscribeFile | services/geminiService.ts:58-81 | the remote answer is returned verbatim; a throw becomes a marked text that reads back as the thrown value's kind. The function never throws |
| Service.ModelFallbackRequest | services/geminiService.ts:61 | a model outside the family is sent exactly as if "gemini-2.5-flash" had been configured |
| UrlReport.VocabularyShown | services/geminiService.ts:106 | the vocabulary line shows the trimmed vocabulary, or "None" when it trims to nothing |
| UrlReport.ReportEchoesUrl | services/geminiService.ts:94 | the report contains the URL |
| UrlReport.ReportEchoesSettings | services/geminiService.ts:99-106 | the report contains each label followed by the model, the language, Enabled or Disabled for each of the five switches, and the shown vocabulary |
| UrlReport.ReportIsNotAFailure | services/geminiService.ts:92 | the report starts with its heading, so it never starts with the failure marker |
| UrlReport.ReadBackLines | services/geminiService.ts:92-108 | for any wording of the fixed texts in which "Enabled" and "Disabled" differ, the URL and every setting are read back from the laid-out lines unchanged |
| UrlReport.ReadBackReport | services/geminiService.ts:92-108 | the URL and every setting shown are read back from the report lines unchanged |
| UrlReport.ReportDistinguishes | services/geminiService.ts:92-108 | two equal report line lists echo the same URL and settings |
| MainScreen.TooLargeMessageText | components/MainScreen.tsx:23 | the size message reads "File is too large. Maximum size is 50MB." |
| MainScreen.FileChange | components/MainScreen.tsx:19-31 | no selection leaves the panel unchanged. An oversized file sets the size message and clears the file, keeping the URL. A file within the limit is taken, clears the message and empties the URL |
| MainScreen.FileAcceptedIff | components/MainScreen.tsx:22-29 | a picked file is taken, and the message cleared, exactly when its size is at most 52428800 bytes (the limit itself is accepted) |
| MainScreen.UrlEdit | components/MainScreen.tsx:95-99 | editing the URL sets it and clears both the file and the message |
| MainScreen.TranscribeClick | components/MainScreen.tsx:33-39 | the click sends the file if there is one, else the URL if non-empty. It sends nothing exactly when the button's disabled condition (line 183) holds, and a URL it sends is never empty |
| MainScreen.LastInputIsSent | components/MainScreen.tsx:33-39 | after a non-empty URL edit the click sends that URL; after an accepted file it sends the file |
| MainScreen.ApplyConsistent | components/MainScreen.tsx:19-31 | each handler keeps the panel consistent: a file excludes a URL and a message, and the only message is the size message |
| MainScreen.ReachableConsistent | components/MainScreen.tsx:13-15 | every panel state reachable from the empty initial state is consistent |
| MainScreen.SetSetting | components/MainScreen.tsx:41-43 | the edited field takes the new value and every other field keeps its value |
| MainScreen.SettingsExtensional | types.ts:18-27 | a settings record is determined by its eight fields |
| MainScreen.SetCurrentValue | components/MainScreen.tsx:41-43 | writing back a field's current value leaves the settings unchanged |
| MainScreen.SetSameKeyTwice | components/MainScreen.tsx:41-43 | of two edits of the same field, the second wins |
| MainScreen.SetDistinctKeysCommute | components/MainScreen.tsx:41-43 | edits of different fields commute |
| LoadingScreen.DisplayUrl | components/LoadingScreen.tsx:58 | a URL of at most 60 characters is shown whole. A longer one is shown as its first 57 characters and "...", 60 characters in all |
| LoadingScreen.DisplayUrlIdempotent | components/LoadingScreen.tsx:58 | a shown URL is shown as itself |
| LoadingScreen.SourceName | components/LoadingScreen.tsx:55-62 | no source and an empty URL show nothing. A URL shows "From URL: " and its display form. A file shows "File: " and its name |
| LoadingScreen.SourceNameKinds | components/LoadingScreen.tsx:55-62 | the description is empty iff there is no source or an empty URL. It carries the URL tag iff the source is a non-empty URL, and the file tag iff it is a file |
| LoadingScreen.ShortUrlShownInFull | components/LoadingScreen.tsx:57-59 | a non-empty URL of at most 60 characters is described as "From URL: " followed by the URL |
| LoadingScreen.IndexOf | components/LoadingScreen.tsx:24 | `indexOf` returns a position holding the message, or -1 exactly when it is absent |
| LoadingScreen.IndexOfFirst | components/LoadingScreen.tsx:24 | the position `indexOf` returns is at or before every position holding the message, so it is the first one |
| LoadingScreen.MessagesDistinct | components/LoadingScreen.tsx:3-10 | the six messages are pairwise distinct |
| LoadingScreen.IndexOfDistinct | components/LoadingScreen.tsx:24 | in a list of distinct entries every entry is found at its own position |
| LoadingScreen.NextIndex | components/LoadingScreen.tsx:25 | the next index is always in bounds: one more than the current one, or 0 after the last entry or for -1 |
| LoadingScreen.Rotate | components/LoadingScreen.tsx:23-27 | the next message is always one of the messages, and the first one follows a message not in the list |
| LoadingScreen.RotateStep | components/LoadingScreen.tsx:23-27 | from the entry at position i the step moves to the entry at the next position |
| LoadingScreen.NextMessage | components/LoadingScreen.tsx:23-27 | the interval callback always yields one of the six messages, and the first one for an unknown message |
| LoadingScreen.NextMessageStep | components/LoadingScreen.tsx:23-27 | the callback moves from message i to message (i + 1) mod 6 |
| LoadingScreen.RotateTimesPosition | components/LoadingScreen.tsx:17-28 | after n ticks the message shown is the one at the position reached by n index steps |
| LoadingScreen.PositionPeriod | components/LoadingScreen.tsx:25 | a full turn of index steps returns to the same position |
| LoadingScreen.RotationPeriod | components/LoadingScreen.tsx:17-28 | starting from the first message, after n ticks message n mod 6 is shown, and six ticks return to the same message |
| App.Transcribe | App.tsx:21-25 | a URL is sent to the URL stand-in and a file to the file service, with the current settings |
| App.Normalize | App.tsx:27-33 | the result is a failure exactly when the transcript starts with "Transcription Failed:". The title matches the status, and the transcript is stored verbatim |
| App.Caught | App.tsx:34-40 | a rejection gives a failure titled "Transcription Failed", carrying the error's message or "An unknown error occurred." |
| App.TitleNamesStatus | App.tsx:29-40 | for every outcome the title is "Transcription Failed" exactly for a failure and "Transcription Successful" exactly for a success |
| App.Begin | App.tsx:17-18 | before anything is awaited the source is recorded and the loading screen is shown |
| App.Settle | App.tsx:29-43 | whatever the outcome, the result screen is shown, storing the normalised transcript or the caught error's result. A returned transcript is a failure iff it is marked, and a rejection is always a failure |
| App.AbortStoresCaught | App.tsx:34-42 | a rejection on the loading screen stores a failure titled "Transcription Failed" carrying the error's message, or "An unknown error occurred." for a non-`Error`, and shows the result screen |
| App.HandleTranscribe | App.tsx:16-44 | a submission ends on the result screen with the source recorded, the settings kept and the normalised transcript stored |
| App.UrlSucceeds | App.tsx:21-33 | a URL submission always succeeds, with the mock report as its transcript |
| App.FileErrorFails | App.tsx:24-33 | a file whose remote call throws gives a failure whose text reads back as the error's kind |
| App.FileAnswerKept | App.tsx:24-33 | a file whose remote call answers keeps the answer verbatim. It is a success exactly when the answer does not start with the failure marker |
| App.ResetToMain | App.tsx:50-54 | going back clears the result and the source and shows the main screen, keeping the settings |
| App.ResetIdempotent | App.tsx:50-54 | going back twice is going back once |
| App.ResetRestoresInitial | App.tsx:50-54 | going back from any state restores the initial state except for the settings |
| App.SettingsChange | App.tsx:46-48 | the new settings record replaces the old one whole and nothing else changes |
| App.SubmitThenFinish | App.tsx:16-44 | submitting from the main screen and then finishing the call equals `handleTranscribe` on the clicked source with the settings of the moment |
| App.DisabledSubmitIgnored | components/MainScreen.tsx:33-39 | with the button disabled, submitting changes nothing |
| App.StepValid | App.tsx:11-14 | every step keeps the screen invariant. MAIN has no result and no source; LOADING has a source and no result; RESULT has both. A recorded URL is non-empty |
| App.ReachableValid | App.tsx:11-14 | every state reachable from the initial one satisfies the screen invariant |
| App.RenderValid | App.tsx:56-66 | in every valid state something is rendered: the `result &&` guard always passes on the result screen, and the loading screen always names its source |

## Left out

- The remote generative-model call (`ai.models.generateContent`) and `response.text` are not modelled. They are the parameter `remote` of `Service.TranscribeFile`, which either answers with text or throws. If `response.text` were undefined, `transcript.startsWith` in App.tsx would throw. That lands in App's catch block, which the `App.Abort` event models.
- `fileToGenerativePart` is left out. It reads the file with the browser's `FileReader` and base64-encodes it. A synchronous throw from `readAsDataURL` rejects its promise inside the service's `try` (services/geminiService.ts:63), so such failures are among the throws of `remote`.
- A failed asynchronous file read is not modelled as an outcome. `onloadend` then fires with a null `reader.result`, and `.split` (services/geminiService.ts:16) throws inside the event callback, outside any `try`. The promise never settles, so the application stays on the loading screen for good. In the model this is a run that never receives a `Finish` or `Abort` event; nothing is proved about it.
- The API-key environment check and all `console` logging are left out. They are ambient I/O.
- Time is not modelled: the 2-second delay of `transcribeUrl`, the 2.5-second message interval and its cleanup, and the `async`/`await` suspension. `transcribeUrl` is a pure template, and `handleTranscribe` is the two steps `App.Begin` and `App.Settle`.
- The progress bar (components/LoadingScreen.tsx:34-53) is left out. It is floating-point animation driven by animation frames.
- components/ResultScreen.tsx is not part of this model. Its two buttons both call `resetToMain`, which is modelled as `App.ResetToMain`.
- JSX, styling, icons, the advanced-settings toggle, the hidden file input and React hook mechanics are left out. State is plain records, and each handler is a step function.
- Only a file's name, size and MIME type are modelled. A browser `File` is always truthy, which is why a selected file always counts as present.
- LoadingScreen.DisplayUrl: lengths are counted in characters, not in the UTF-16 code units JavaScript counts. Likewise, `Strings.Trim` works on characters.
- App.Step: settings can be edited only on the main screen, so the settings captured by `handleTranscribe`'s closure are the current ones when the call finishes (`App.SubmitThenFinish`). The capture itself is not modelled separately.
- App.Begin: `handleTranscribe` does not clear the result before the await (App.tsx:17-18), and `App.Begin` keeps it too. The result is already null on the main screen (`App.ReachableValid`), so this never matters.
