# Picture Poet — a Dafny model of the poem pipeline

Picture Poet turns a photo into a poem in two remote steps. First a photo-analysis
flow extracts keywords. Then a poem flow writes a poem from those keywords and a
style directive. This project models two parts of the code:

- **The poem flow's retry loop** (`poem_flow.dfy`, module `PoemFlow`). It makes up to
  three calls to the remote prompt. It retries only a failure whose message contains
  `"[503"`, and never after the last attempt. Before each retry it waits the current
  delay, then doubles it: 1000 ms, then 2000 ms. Every other failure is rethrown at
  once. The remote prompt is an oracle: a sequence of pre-decided outcomes, one per
  call that may be made. Each outcome either resolves with an output or rejects with a
  message. Waits are durations appended to a log that the method returns.
  `GeneratePoemFromKeywords` is the loop itself. Its `ensures` tie the result, the
  requests sent and the waits to a closed-form specification:
  - `StopAttempt` gives the attempt at which the run stops;
  - `Verdict` gives what that attempt makes of the run;
  - `Backoff` gives the wait schedule.

  The lemmas then derive the promised behaviours from that specification. The
  defensive `throw` after the loop is the `GaveUp` result. Its branch is unreachable
  because the loop invariant `i < MaxRetries` holds on every iteration. The method's
  `ensures !result.GaveUp?` states this.
- **The page component** (`picture_poet_app.dfy`, module `PicturePoet`). The class
  `App` has one field per React state hook. Its methods are the handlers that change
  that state:
  - choosing a file and finishing the file read;
  - analysing the photo;
  - generating the poem, which runs the `PoemFlow` loop;
  - saving.

  Each method's `modifies` clause names exactly the fields the handler sets, so every
  other field is unchanged. The pure expressions the handlers use are functions:
  - the style description;
  - the keyword join;
  - the download-file stem, `name.substring(0, name.lastIndexOf('.'))`, with its
    `|| 'photo'` and `|| 'poem'` fallbacks;
  - the save-outcome condition.

  `AutoAnalyzeDue` is the firing condition of the page's automatic-analysis effect.
  `AnalyzePhoto`'s contract shows one thing about that effect. A failed analysis of a
  photo that has no keywords leaves the condition true again. The effect then fires
  again once the loading flag drops, so a photo whose analysis keeps failing is
  re-analysed over and over.

`js_strings.dfy` (module `JsStrings`) gives the ECMAScript meaning of the built-ins
used here:
- truthiness of a nullable string, and `||` on strings;
- `includes`, `lastIndexOf` and `substring`;
- `join`, with an inverse `Unjoin` used to state that joining keeps every keyword in
  order.

Three things the code does not do:
- The flow does not reject empty keywords. Its input schema is `z.string()`, which
  accepts `""`. The only keyword guard is the page's check that the keyword list exists
  and is non-empty.
- The flow never waits a third time. It waits 1000 ms and then 2000 ms, and the last
  attempt is followed by no wait.
- The flow does not check that the poem is non-empty. `output!` is a compile-time
  assertion only.

## Model

| member | source | states |
|---|---|---|
| `PoemFlow.GeneratePoemFromKeywords` | src/ai/flows/generate-poem-from-keywords.ts:53-75 | At most 3 prompt calls. Every call sends the flow's input unchanged. The run ends with the output or the rethrown error of the attempt where `StopAttempt` says it stops. The waits made are exactly `Backoff` of that attempt. The post-loop throw is never reached. |
| `PoemFlow.StopAttempt` | src/ai/flows/generate-poem-from-keywords.ts:57-63 | The stopping attempt is below 3. Every earlier attempt was a 503 rejection. If it is not the last attempt, it is itself not a 503 rejection. |
| `PoemFlow.Backoff` | src/ai/flows/generate-poem-from-keywords.ts:55-66 | Before attempt k exactly k waits are made. Wait j lasts 1000·2^j ms. |
| `PoemFlow.Verdict` | src/ai/flows/generate-poem-from-keywords.ts:59-69 | A resolved attempt's output is returned. A rejected attempt's message is rethrown unchanged. Neither is the post-loop error. |
| `PoemFlow.BackoffTotal` | src/ai/flows/generate-poem-from-keywords.ts:55-66 | The waits before attempt k total 1000·(2^k − 1) ms. |
| `PoemFlow.BackoffDoubles` | src/ai/flows/generate-poem-from-keywords.ts:65-66 | The first wait is 1000 ms. Each later wait is twice the one before. |
| `PoemFlow.ResolvedAfterRetries` | src/ai/flows/generate-poem-from-keywords.ts:55-66 | After k 503 rejections, a resolving attempt k stops the run. Its output is returned, k+1 calls are made, and the waits total 1000·(2^k − 1) ms. |
| `PoemFlow.PermanentFailureStops` | src/ai/flows/generate-poem-from-keywords.ts:63-69 | A rejection without `"[503"` ends the run at that attempt. Its message is rethrown and no wait follows. |
| `PoemFlow.PermanentFirstFailure` | src/ai/flows/generate-poem-from-keywords.ts:63-69 | A first attempt rejected without `"[503"` means one call, zero waits, and that error rethrown. |
| `PoemFlow.AllUnavailable` | src/ai/flows/generate-poem-from-keywords.ts:57-69 | If every attempt is a 503 rejection, all 3 calls are made. The waits are [1000, 2000]. The third error is rethrown even though it is a 503. |
| `PoemFlow.IsUnavailable` | src/ai/flows/generate-poem-from-keywords.ts:63 | A message that starts with `"[503"` is a 503 failure. A 503 message is at least 4 characters long. |
| `PoemFlow.Retryable` | src/ai/flows/generate-poem-from-keywords.ts:59-63 | A resolved attempt is never retried. A rejection is retryable exactly when its message is a 503 failure. |
| `PoemFlow.UnavailableIffMarker` | src/ai/flows/generate-poem-from-keywords.ts:63 | An error counts as a 503 exactly when `"[503"` occurs somewhere in its message. |
| `JsStrings.IncludesIffOccurs` | src/ai/flows/generate-poem-from-keywords.ts:63 | `includes` holds exactly when the substring occurs at some index. |
| `JsStrings.LastIndexOf` | src/components/PicturePoetApp.tsx:136 | The result is −1 or an index holding the character. No later index holds it. |
| `JsStrings.Substring` | src/components/PicturePoetApp.tsx:136 | In-range arguments select that slice, in either order. Arguments covering the whole string give it whole. Two non-positive arguments give `""`. |
| `JsStrings.Truthy` | src/components/PicturePoetApp.tsx:135-143 | A null string is falsy. A present string is truthy exactly when it is not empty. |
| `JsStrings.OrElse` | src/components/PicturePoetApp.tsx:136-140 | The string or-operator gives its left operand when it is non-empty and its right operand otherwise. The result is empty only when both are. |
| `JsStrings.Includes` | src/ai/flows/generate-poem-from-keywords.ts:63 | The empty string is always included. A found substring is no longer than the string. |
| `JsStrings.Join` | src/components/PicturePoetApp.tsx:102 | No parts give `""`. One part gives that part. The joined string starts with the first part. |
| `JsStrings.UnjoinJoin` | src/components/PicturePoetApp.tsx:102 | A non-empty list joined with a separator whose first character occurs nowhere else in it, or in any part, splits back into the same list. |
| `PicturePoet.StyleDescription` | src/components/PicturePoetApp.tsx:100 | The style starts with `"A <length> poem with a <tone> tone. "`. It is exactly that sentence when the custom prompt is empty. Otherwise `"Additional context: "` and the prompt follow it. |
| `PicturePoet.StyleKeepsCustomPrompt` | src/components/PicturePoetApp.tsx:100 | For a fixed length and tone, equal style descriptions mean equal custom prompts. |
| `PicturePoet.KeywordsParamKeepsOrder` | src/components/PicturePoetApp.tsx:102 | The request's keywords field sets out the keyword list with `", "`. For keywords without commas it splits back into the same list, in order. |
| `PicturePoet.KeywordsParam` | src/components/PicturePoetApp.tsx:102 | No keywords give `""`. One keyword gives that keyword. The field starts with the first keyword. |
| `PicturePoet.KeywordsReady` | src/components/PicturePoetApp.tsx:93 | Null keywords and an empty list block generation. Any non-empty list allows it. |
| `PicturePoet.SaveSucceeds` | src/components/PicturePoetApp.tsx:143 | A poem, or a photo together with its file, is enough to report success. Without a file and without a poem nothing is saved, even when a photo is loaded. |
| `PicturePoet.App.AutoAnalyzeDue` | src/components/PicturePoetApp.tsx:70 | The effect fires only with a non-empty photo and no analysis running. Any keyword list stops it, even an empty one. While it is due, generation is not yet possible. |
| `PicturePoet.FileStem` | src/components/PicturePoetApp.tsx:136 | A name without a dot gives `""`. Otherwise the result is the prefix before the last dot, and no dot follows that dot. |
| `PicturePoet.StemOfDottedName` | src/components/PicturePoetApp.tsx:136 | `stem + "." + ext`, with no dot in ext, has stem `stem`. |
| `PicturePoet.ImageFileName` | src/components/PicturePoetApp.tsx:136-137 | The photo's name ends in `"_picture_poet.png"`. A name without a dot gives `"photo_picture_poet.png"`. |
| `PicturePoet.PoemFileName` | src/components/PicturePoetApp.tsx:140 | With no file the name is `"picture_poet_poem.txt"`. With a file it ends in `"_poem.txt"`. A file name without a dot gives `"poem_poem.txt"`. |
| `PicturePoet.SavedNamesFollowStem` | src/components/PicturePoetApp.tsx:136-140 | Both saved names use the photo's stem, or `"photo"` and `"poem"` when the stem is empty. |
| `PicturePoet.App.constructor` | src/components/PicturePoetApp.tsx:36-50 | Initial state: everything null, length "medium", tone "reflective", empty custom prompt, not loading, poemKey 0. |
| `PicturePoet.App.ChooseFile` | src/components/PicturePoetApp.tsx:54-57 | A chosen file is recorded. An empty selection changes nothing. |
| `PicturePoet.App.LoadEnded` | src/components/PicturePoetApp.tsx:59-64 | The photo becomes the reader's result. That result is null after a failed or aborted read. Error, poem and keywords are cleared to null. Nothing else changes. A non-empty result arms the automatic analysis, and a null or empty one leaves it off. |
| `PicturePoet.App.AnalyzePhoto` | src/components/PicturePoetApp.tsx:75-90 | Without a photo, nothing is sent and nothing changes. Otherwise the photo is sent. Success stores the keywords. Failure keeps the keywords and sets the analysis error. Loading is false afterwards. |
| `PicturePoet.App.GeneratePoem` | src/components/PicturePoetApp.tsx:92-115 | With null or empty keywords, only the "Cannot generate…" error is set and no request is sent. Otherwise the request is the joined keywords plus the style description. Flow success stores the poem and adds exactly 1 to poemKey. Flow failure keeps both and sets the generation error. Loading is false afterwards. |
| `PicturePoet.App.SaveCreation` | src/components/PicturePoetApp.tsx:134-148 | The photo is downloaded (when there is a photo and a file) under `ImageFileName`, then the poem (when there is one) under `PoemFileName`, in that order. "Content Saved" is reported exactly when something was downloaded, and "Nothing to Save" otherwise. |

## Left out

- `src/components/ThemeToggle.tsx` is not part of this model: it only wraps a theme hook.
- The generative model, the prompt text, and `ai.definePrompt`/`ai.defineFlow` are library calls. The prompt is only an outcome oracle.
- A prompt that resolves with a null output is not modelled. `output!` does not check at run time, and genkit's output-schema check is library behaviour.
- Zod schema validation of inputs and outputs is library behaviour. The input and output records are plain datatypes.
- Real time and asynchrony are left out: `setTimeout`, `await`, promise scheduling, and the renders in which a loading flag is seen as true. Waits are logged durations.
- `console.log` and `console.error` output is left out.
- A thrown value with no `message` is treated like an empty message. Neither contains `"[503"`.
- Browser I/O is left out: `FileReader.readAsDataURL` (only the result it hands to `onloadend` is modelled), the anchor, Blob and object-URL work inside `downloadFile`, `navigator.share`, the clipboard, and the toasts other than the save outcome.
- The JSX rendering is left out. That includes the style selectors and the custom-prompt text area that set `poemLength`, `poemTone` and `customPrompt`, and the buttons' `disabled` conditions.
- The `useEffect` scheduling is left out. Only its firing condition is stated, as `App.AutoAnalyzeDue`.
- The photo-analysis flow's code is not part of this model. Its result is an oracle outcome.
- `App.GeneratePoem` does not expose the flow's request log and wait log. Those are stated by `PoemFlow.GeneratePoemFromKeywords`.
- PicturePoet.App.GeneratePoem: `poemKey` is an unbounded natural number here. JavaScript numbers lose exactness above 2^53, which no session reaches.
