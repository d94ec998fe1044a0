# QuantMind Academy lesson pipeline, in Dafny

This project models the streaming lesson pipeline of QuantMind Academy, a single-page app.
The learner answers three background questions on the onboarding form. The app asks a
text-generation service for a tailored lesson. The answer streams in fragment by fragment and
is appended to a buffer that the lesson view renders. The learner can restart afterwards.

Modules, one per source file:

- `Types` (`types.dfy`): the level enumerations with their labels, `UserContext` and `AppState`.
- `GeminiService` (`gemini_service.dfy`): the streaming client.
  - The interest falls back to `"General Overview"`, and the two level labels are interpolated as they are.
  - The service's answer is an input value, `VendorStream`. It holds the response chunks (`None` for a chunk without text) and an optional failure point. `failAt == Some(k)` means the call throws before chunk `k` is read; `k == 0` covers a failure while creating the chat or sending the message.
  - `StreamLessonContent` returns the request it sends and the list of `onChunk` arguments in call order. `Delivered` is the function that specifies that list.
- `App` (`app.dfy`): the class `LessonMachine`. Its two fields, `phase` and `content`, are changed by `Submit`, `OnChunk`, `Finish` and `Restart`. `RunLesson` chains them into one lesson. `Concat` and its lemmas describe the buffer, and `Render` gives the screens shown for a phase.
- `LessonView` (`lesson_view.dfy`): the auto-scroll decision, the indicators that follow `isGenerating`, and the code-block label. The label is the capture group of `language-(\w+)`, found as the leftmost match with a greedy run.
- `Onboarding` (`onboarding.dfy`): the class `OnboardingForm`, with three fields and their defaults, one setter per field and `Submit`. `Choices` builds the choice buttons from the enumeration members.
- `Wrappers` (`wrappers.dfy`): `Option`.

The code has no protection against a second submit or a stale stream, and the model follows the code:

- `submit` has no guard against being called while a lesson is generating (App.tsx:12-22). `LessonMachine.Submit` accepts every phase. Only the UI keeps a second submit away, because the form is hidden while a lesson is generating.
- There is no generation counter. A fragment from a stream that is still running after a restart lands on the new buffer. `StaleFragmentAfterRestart` shows this. The restart button is hidden while a lesson is generating (components/LessonView.tsx:47-60).

## Model

| member | source | states |
|---|---|---|
| Types.AllMathLevels | types.ts:1-5 | every MathLevel member appears, and none twice (the declaration order of the buttons is stated by Onboarding.MathChoicesExact) |
| Types.AllCodingLevels | types.ts:7-11 | every CodingLevel member appears, and none twice (the declaration order of the buttons is stated by Onboarding.CodingChoicesExact) |
| Types.MathLevelOfLabel | types.ts:1-5 | a label maps back to the one member that carries it, so the label-to-member mapping is invertible |
| Types.CodingLevelOfLabel | types.ts:7-11 | a label maps back to the one member that carries it |
| Types.LabelsInjective | types.ts:1-11 | within each enumeration, equal labels mean equal members |
| GeminiService.EffectiveInterest | services/geminiService.ts:29 | the interest written is never empty; a non-empty interest is kept verbatim |
| GeminiService.TailorInterest | services/geminiService.ts:27-29 | the interest is the learner's when non-empty, else "General Overview"; both labels are interpolated verbatim |
| GeminiService.TailorDistinguishes | services/geminiService.ts:27-29 | two contexts give the same instruction exactly when they agree on both levels and on the effective interest |
| GeminiService.Filter | services/geminiService.ts:53-58 | the passed-on texts are never empty and never outnumber the chunks |
| GeminiService.FilterAppend | services/geminiService.ts:53-58 | filtering distributes over concatenation: chunks are passed on in arrival order, never reordered or merged |
| GeminiService.FilterSingle | services/geminiService.ts:55-57 | one chunk yields its text exactly when the text is present and non-empty, otherwise nothing |
| GeminiService.FilterStep | services/geminiService.ts:53-58 | reading one more chunk adds at most that chunk's text at the end |
| GeminiService.StreamLessonContent | services/geminiService.ts:7-62 | one request carrying the tailored instruction; the onChunk arguments are the deliverable texts read before any failure, then, on failure, one error notice; the call always returns |
| GeminiService.CleanRunDeliversFilter | services/geminiService.ts:51-58 | without a failure, exactly the non-empty chunk texts arrive, with no closing marker |
| GeminiService.FailureKeepsPrefixThenNotice | services/geminiService.ts:40-62 | on a failure, earlier fragments stay, form a prefix of the clean run's, and exactly one error notice follows as the last fragment |
| GeminiService.LateFailureAppendsNotice | services/geminiService.ts:53-62 | a failure at or after the last chunk delivers the whole clean run and then the one error notice |
| GeminiService.DeliveredNonEmpty | services/geminiService.ts:53-62 | every fragment is non-empty; nothing arrives exactly when the run is clean and no chunk has text |
| GeminiService.NoDeliverableIffEmpty | services/geminiService.ts:55-57 | the filter yields nothing exactly when no chunk has non-empty text |
| GeminiService.ImmediateFailureDeliversOnlyNotice | services/geminiService.ts:40-62 | a failure while creating the chat or sending the message delivers only the error notice |
| App.ConcatAppend | App.tsx:16-19 | the buffer after two batches of fragments is the first batch's text followed by the second's |
| App.ConcatSnoc | App.tsx:18 | appending one fragment extends the buffer by exactly that fragment |
| App.SplitInvariance | App.tsx:14-19 | splitting a fragment into two adjacent fragments with the same combined text gives the same buffer |
| App.ConcatEmptyIff | App.tsx:54 | with non-empty fragments the buffer is empty exactly when none arrived, which is when the full-screen loader stays up |
| App.RenderShowsOneScreen | App.tsx:31-54 | the form is shown iff Onboarding; the lesson view iff Generating or Reading, told isGenerating iff Generating; the loader iff Generating with empty content |
| App.LessonMachine.constructor | App.tsx:9-10 | the machine starts in Onboarding with empty content |
| App.LessonMachine.Submit | App.tsx:13-14 | from any phase: Generating and an empty buffer, before any fragment |
| App.LessonMachine.OnChunk | App.tsx:16-19 | the chunk is appended at the end, earlier characters unchanged, phase unchanged |
| App.LessonMachine.Finish | App.tsx:21 | Reading once the streaming call returns; the buffer is unchanged |
| App.LessonMachine.Restart | App.tsx:24-27 | from any phase: Onboarding with an empty buffer |
| App.LessonMachine.RunLesson | App.tsx:12-22 | a lesson always ends in Reading, with the buffer equal to the in-order concatenation of the delivered fragments |
| App.CleanLessonText | App.tsx:12-22 | a clean run's buffer is the joined chunk texts, and stays empty exactly when no chunk had text |
| App.FailedLessonText | App.tsx:12-22 | a failed run's buffer is the text before the failure followed by the error notice, never empty |
| App.TwoChunkLesson | App.tsx:16-19 | two text chunks and a clean end give the two texts joined, in order |
| App.StaleFragmentAfterRestart | App.tsx:12-27 | a fragment arriving after a restart is appended to the fresh buffer: there is no generation counter |
| LessonView.AutoScrollBoundary | components/LessonView.tsx:16-29 | a distance of exactly 200 does not scroll, 199 does; nothing scrolls when not generating or when there is no parent element; a reader closer to the bottom is scrolled too |
| LessonView.IndicatorsFollowGenerating | components/LessonView.tsx:42-109 | status text, badge or restart button (exactly one), and bottom loader follow isGenerating alone; the content reaches the renderer unchanged |
| LessonView.WordRun | components/LessonView.tsx:74 | the greedy \w+: a run of word characters ending at the end or at a non-word character |
| LessonView.FindMatch | components/LessonView.tsx:74 | the leftmost index where `language-` followed by a word character starts, or none at all |
| LessonView.CodeLabel | components/LessonView.tsx:73-88 | inline code gets no label; a block always gets a non-empty label |
| LessonView.BlockLabelIsLeftmostMatch | components/LessonView.tsx:74-78 | a block's label is the maximal word run after the leftmost match, or "ASCII" when none; a missing class name gives "ASCII" |
| LessonView.FenceClassLabel | components/LessonView.tsx:74-78 | "language-python" gives "python" |
| LessonView.BarePrefixLabel | components/LessonView.tsx:74-78 | "language-" alone gives "ASCII" |
| LessonView.LaterClassLabel | components/LessonView.tsx:74-78 | "hl language-c++" gives "c": a later match is found and the run stops at the first non-word character |
| Onboarding.OnboardingForm.constructor | components/Onboarding.tsx:10-12 | the defaults are Beginner, NoCoding (the first members) and an empty interest |
| Onboarding.OnboardingForm.SelectMath | components/Onboarding.tsx:46 | sets the math level and nothing else |
| Onboarding.OnboardingForm.SelectCoding | components/Onboarding.tsx:70 | sets the coding level and nothing else |
| Onboarding.OnboardingForm.TypeInterest | components/Onboarding.tsx:91 | sets the interest verbatim and nothing else |
| Onboarding.OnboardingForm.Submit | components/Onboarding.tsx:14-17 | hands over exactly the three current values, without validation |
| Onboarding.ExactlyOneSelected | components/Onboarding.tsx:47-51 | over distinct members that include the selection, exactly one button is highlighted |
| Onboarding.MathChoicesExact | components/Onboarding.tsx:42-55 | three math buttons in declaration order, exactly one highlighted: the current level |
| Onboarding.CodingChoicesExact | components/Onboarding.tsx:66-79 | three coding buttons in declaration order, exactly one highlighted: the current level |

## Left out

- The text-generation SDK (`GoogleGenAI`, `ai.chats.create`, `sendMessageStream`) is a foreign network service. Its answer is the `VendorStream` input. One chat and one message per call, with no retry, is structural: `StreamLessonContent` takes one stream and returns one request.
- The client construction (services/geminiService.ts:11) sits outside the `try`. Whether it can throw depends on the SDK, so the model does not cover a failure there. Such a failure would reject the call and leave the app in Generating.
- The fixed prose of the system instruction and the prompt, the model name, `temperature`, the thinking budget, the API key from the environment and `console.error` are not modelled. `Tailoring` keeps only the three interpolated values.
- GeminiService.StreamLessonContent: returns the `onChunk` arguments as a list instead of calling back into the app, so the two modules do not depend on each other. `RunLesson` then feeds them to `OnChunk` in order. The interleaving of fragments with React re-renders is not modelled.
- React scheduling (`useEffect`, `useCallback`, batched `setState`, `async`/`await`) is not modelled. A lesson is a strictly sequential submit, fragments, finish.
- LessonView.ShouldAutoScroll: takes the scroll metrics as integers, whereas the browser reports fractional values. `scrollIntoView` and the scroll geometry are not modelled.
- Markdown rendering (`ReactMarkdown`, `remarkGfm`) and all styling are not modelled. The view only passes the buffer to the renderer unchanged.
- `AppState`'s string values (`'ONBOARDING'` and so on) are never displayed or compared as strings, so `AppState` is a plain three-valued datatype.
