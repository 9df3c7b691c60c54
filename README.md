# love-ai: a Dafny model of the upload, analysis and question plumbing

The application lets a user upload a screenshot of a text conversation and
get back a "romantic interest" score. Its own logic is small: a few string
and validation routines in the route handlers and one library file. This
project models that logic and proves what it promises:

- **the `data:` URL codec** (`lib/analysis.ts`, `app/api/upload/route.ts`).
  The upload route builds `data:<mime>;base64,<payload>`. The library takes
  the URL apart again with two regular expressions. Both are modelled with
  JavaScript's own semantics: the anchored `^data:[^;]+;base64,` stops at
  the first semicolon, while the greedy `(.+)` in `^data:(.+);base64,`
  backtracks from the first line terminator to the last `;base64,`. Three
  facts are proved about them: an accepted upload's URL round-trips, a
  string without the prefix is left unchanged, and the two parsers
  disagree on a media type that carries a parameter;
- **the shape gate on a model reply** (`parseClaudeResponse`), and the
  choice of the raw reply text in `callClaude`: the first text block,
  trimmed, or else the whole response serialised;
- **the upload route's guards** in their fixed order (400, 415, 413). This
  includes media-type inference from the declared type or the file
  extension, and the 10 MiB limit;
- **the question route's** conversation normaliser and its two guards;
- **the mock analysis route**: two image guards, a score from a random
  draw, and the four-band assessment;
- **the landing page's state**, as a class with the page's five state
  fields. Its handlers are methods, and the score message is a function.

JavaScript values (`unknown`, parsed JSON) are the datatype
`JsValues.Value`. `Truthy`, `IsObjectType` and `Get` give JavaScript's
truthiness, `typeof … === 'object'` and optional chaining `v?.key`.
`JSON.parse`, `JSON.stringify` and `Buffer`'s base64 encoder are foreign
calls, so they are function parameters. The random draw of the analysis
route is a parameter `draw < 45`. A request body that cannot be read is
the constructor `Unreadable`. A body that is not JSON is `None`.

The normaliser copies a message's `id` with `??`, so the value kept is
whatever the client sent. A numeric id stays a number, although
`ConversationMessage` declares `id` a string. The model keeps `id` a
`Value` for that reason.

## Model

| member | source | states |
|---|---|---|
| `Analysis.StripBase64Prefix` | lib/analysis.ts:40-41 | anything removed is exactly a leading `data:<m>;base64,` with `m` non-empty and free of semicolons; otherwise the URL is returned unchanged |
| `Analysis.StripRemovesPrefix` | lib/analysis.ts:40-41 | for every such `m` and every payload, stripping `data:<m>;base64,<payload>` yields exactly the payload |
| `Analysis.StripStopsAtFirstSemicolon` | lib/analysis.ts:41 | when the text after the first semicolon does not continue with `base64,`, the URL stays whole, because the anchored pattern cannot match anywhere else |
| `Analysis.LastGroupEnd` | lib/analysis.ts:44 | backtracking of the greedy group: the result is the largest end index at or below the bound `k` at which `;base64,` follows a terminator-free group; `None` if there is none |
| `Analysis.GroupEnd` | lib/analysis.ts:44 | the regex matches iff some group end exists, and the match found is the greatest one (greedy `.+`) |
| `Analysis.ExtractMimeType` | lib/analysis.ts:43-46 | the text between `data:` and the greedy match's `;base64,`, or `image/png` when the pattern does not match |
| `Analysis.ExtractRecoversMime` | lib/analysis.ts:43-46 | if the media type is non-empty and has no line terminator, and the payload has no semicolon, the extractor returns the media type |
| `Analysis.ParameterisedMimeDisagreement` | lib/analysis.ts:40-46 | for `data:<m>;<param>;base64,<p>` the extractor returns `<m>;<param>` while the stripper leaves the URL whole |
| `Analysis.ParseClaudeResponse` | lib/analysis.ts:48-71 | a result is returned only when `analysis.parsedMessages` is truthy. A falsy payload and a payload that is neither a string nor an object give null. A string payload is parsed and then gated, and a parse failure gives null. An object that passes is returned as it is. An object that fails is stringified and parsed again; the result of that is returned if it passes, and null if it fails or does not parse |
| `Analysis.ObjectFallbackAddsNothing` | lib/analysis.ts:59-65 | when stringify-then-parse reproduces the object, the fallback check accepts nothing more than the direct check |
| `Analysis.FirstTextBlockIsFound` | lib/analysis.ts:126-128 | `find` returns the first block whose `type` is `'text'` |
| `Analysis.RawResponse` | lib/analysis.ts:124-131 | if the first text block's `text` is a string that is non-empty after trimming, the result is that trimmed text. Otherwise the result is the serialised response, and so it is when `content` is not an array or has no text block; later text blocks are ignored |
| `Analysis.RawResponseFromTextIsTrimmed` | lib/analysis.ts:129-131 | a reply not taken from the serialisation is non-empty and has no whitespace at either end |
| `Strings.Trim` | lib/analysis.ts:130 | the result is a contiguous middle part of the input with only ECMAScript whitespace cut from both ends; it is empty iff the input is all whitespace, and otherwise starts and ends with non-whitespace |
| `Strings.FirstIndex` | lib/analysis.ts:126-128 | the first index at or after the start whose element satisfies the predicate, or none if no element does |
| `Strings.NatToDecimal` | app/api/cupid/route.ts:28 | `${index}` is a non-empty string of decimal digits without a leading zero; `0` gives exactly `"0"` |
| `Strings.DecimalRoundTrip` | app/api/cupid/route.ts:28 | reading the digits of `${index}` back gives the index |
| `Strings.NatToDecimalInjective` | app/api/cupid/route.ts:28 | distinct indices give distinct default ids |
| `UploadRoute.InferMimeType` | app/api/upload/route.ts:17-30 | always an allowed type. A non-empty declared type that is exactly allowed is returned unchanged. Otherwise the lower-cased name's extension decides: `.jpg`/`.jpeg` give `image/jpeg`; `.png`, `.webp`, `.heic` and `.heif` give their own type; any other name gives `image/png` |
| `UploadRoute.SuffixesExclusive` | app/api/upload/route.ts:22-27 | a name ends with at most one of the six extensions, so the order of the extension tests does not matter |
| `UploadRoute.Post` | app/api/upload/route.ts:35-95 | the guard order: a missing or empty file gives 400; then a declared type not allowed even after lower-casing gives 415; then a length of 0 or over 10 MiB gives 413 (only ever the over-limit half); an unreadable body gives 500. Each iff. An accepted upload carries the file's name and size, the inferred type and `data:<type>;base64,<encoded bytes>` |
| `UploadRoute.AllowedMimeTypesParse` | app/api/upload/route.ts:8-15 | every allowed type is non-empty and has no semicolon or line terminator, so both library parsers read it whole |
| `UploadRoute.UploadDataUrlRoundTrip` | app/api/upload/route.ts:70-72 | for an accepted upload whose encoding uses the base64 alphabet, the library extracts the route's chosen type and strips exactly the encoded bytes |
| `UploadRoute.MixedCaseTypeIsIgnored` | app/api/upload/route.ts:18-19 | any declared type that is allowed only once lower-cased passes the 415 guard, yet the media type is inferred as if none had been declared |
| `UploadRoute.UpperCasePngIsIgnored` | app/api/upload/route.ts:18-19 | the declared type `IMAGE/PNG` is such a type |
| `UploadRoute.ValidateFile` | app/api/upload/route.ts:32-33 | an entry passes only if it is a file, and a file passes iff its content is non-empty; a missing entry or a text field fails |
| `Strings.ToLower` | app/api/upload/route.ts:22-27 | the result has the input's length, each character is lower-cased, and no upper-case ASCII letter remains |
| `UploadRoute.SizeLimitBoundary` | app/api/upload/route.ts:63 | exactly 10 MiB passes the size guard; one byte more fails it |
| `ConversationTypes.SenderOf` | app/api/cupid/route.ts:8-9 | a value is a sender iff it is the string `personA` or `personB`, and the sender read is the one with that wire name |
| `CupidRoute.IsSender` | app/api/cupid/route.ts:8-9 | a value is a sender iff it is the string `personA` or the string `personB` |
| `CupidRoute.EntryToMessage` | app/api/cupid/route.ts:27-31 | a null or undefined id is replaced by the canonical decimal of the entry's input index (non-empty digits that read back as the index, with no leading zero, and exactly `"0"` at index 0); any other id is copied; sender and text are copied; there is no timestamp |
| `CupidRoute.Question` | app/api/cupid/route.ts:39-40 | a non-string question gives `''`; a string question gives `''` iff it is all whitespace; a non-empty result has no whitespace at either end |
| `ConversationTypes.SenderRoundTrip` | types/conversation.ts:7 | each sender is read back from its wire name |
| `CupidRoute.NormalizeEntries` | app/api/cupid/route.ts:16-33 | the output is never longer than the input |
| `CupidRoute.KeptIndices` | app/api/cupid/route.ts:18-25 | every kept position is in the input and holds a well-formed entry |
| `CupidRoute.KeptIndicesAreTheFilter` | app/api/cupid/route.ts:18-33 | the kept positions are strictly increasing and are exactly those of the non-null objects with a string `text` and a valid `sender` |
| `CupidRoute.NormalizeIsKeptEntries` | app/api/cupid/route.ts:16-33 | the j-th output message is the one built from the j-th kept entry, at that entry's input position |
| `CupidRoute.NormalizeConversation` | app/api/cupid/route.ts:11-34 | a non-array gives `[]`. An array gives, in input order, one message per well-formed entry and none for any other, each built with its input position; the output is no longer than the input |
| `CupidRoute.KeptMessageFields` | app/api/cupid/route.ts:27-31 | a kept message copies `sender` and `text`, and carries no timestamp. It keeps its own `id` unless that is null or undefined, in which case the id is the entry's input index in decimal |
| `CupidRoute.DefaultIdIsInputIndex` | app/api/cupid/route.ts:17-28 | after one dropped entry, an id-less message gets the id `"1"` (its input index), not `"0"` |
| `CupidRoute.Post` | app/api/cupid/route.ts:36-66 | an empty trimmed question gives the question 400, whatever the conversation. A non-empty question with an empty normalised conversation gives the conversation 400. Otherwise the answerer is called with both, the question trimmed. A body that is not JSON gives 500 |
| `AnalyzeRoute.ScoreBand` | app/api/analyze/route.ts:35-43 | each score falls in exactly one of four bands: from 80, from 70 to below 80, from 50 to below 70, and below 50 |
| `AnalyzeRoute.ScoreBandMonotone` | app/api/analyze/route.ts:35-43 | a higher score never falls in a weaker band |
| `AnalyzeRoute.SelectAssessment` | app/api/analyze/route.ts:33-43 | the assessment written by the if/else chain is the one of the score's band |
| `AnalyzeRoute.ImageGuard` | app/api/analyze/route.ts:9-24 | a request gets past the guards iff its `image` entry is a file whose type is exactly png, jpeg, jpg or gif. No entry or an empty string gives 400 `No image provided`; every other failure is 400 too |
| `AnalyzeRoute.Post` | app/api/analyze/route.ts:5-57 | the guards decide before any score exists. A scored answer has score `50 + draw`, which lies in [50, 94], with the assessment of that same score's band, never the `< 50` one. An unreadable body gives 500 |
| `HomePage.Home.constructor` | app/page.tsx:13-17 | the page starts with no file, results hidden, no result, no analysis running and no error, and its invariant holds |
| `HomePage.Home.HandleFileSelect` | app/page.tsx:25-40 | the type check comes first and sets the type error; then the size check (over 10 MiB) sets the size error. In both cases the earlier selection is kept. A valid file becomes the selection and clears the error. No other field changes, and the selection invariant holds |
| `HomePage.Home.HandleAnalyze` | app/page.tsx:42-50 | with no file it only sets the upload-first error, leaving `isAnalyzing` and `showResults` as they were. With a file it sets `isAnalyzing`, clears the error and hides the results, and the file it sends passes the analysis route's image guard |
| `HomePage.Home.FinishAnalyze` | app/page.tsx:52-84 | a delivered result is stored and shown. A failure sets the message of the thrown error: not-ok uses the body's `error` or `Analysis failed`, and a non-`Error` uses the fallback. Either way `isAnalyzing` ends false |
| `HomePage.FailureMessage` | app/page.tsx:63-66 | a not-ok response always yields a non-empty message |
| `HomePage.Home.HandleReset` | app/page.tsx:87-93 | the selection and result become null, the results are hidden and the error cleared |
| `HomePage.ScoreMessage` | app/page.tsx:95-100 | each of the four messages is shown exactly on its threshold interval: 80 and up, 70 to 79, 50 to 69, below 50 |
| `HomePage.ScoreMessageFollowsBand` | app/page.tsx:95-100 | the page's message is the one for the band that chose the route's assessment, so the message is monotone in the score |
| `HomePage.RouteScoresNeverJustFriends` | app/api/analyze/route.ts:30 | no score the mock route can produce shows "Likely just friends" |
| `HomePage.SelectedFilePassesRouteGuard` | app/page.tsx:27-36 | any file the page lets the user select passes the analysis route's image guard |

## Left out

- No keyword-based scorer: the code of `lib/analysis.ts` and the routes contains none, so none is modelled.
- The Anthropic API call in `lib/analysis.ts` is not modelled: the request body, headers, prompt text, API-key lookup and response status handling. This is network I/O with an external service. Only the choice of `rawResponse` from the parsed response is modelled.
- `askCupidQuestion` is not modelled. The question route imports it, but `lib/analysis.ts` does not define it. The model stops at the call (`AskCupid`), so its failure (500) is not modelled.
- `JSON.parse`, `JSON.stringify`, `FormData`, `Buffer` and `NextResponse` are foreign calls, so they are parameters or datatypes here. `JSON.stringify` is total on `Value`, since a `Value` is a finite tree with no cycles, no BigInt and no `toJSON`.
- The upload route's call to `runScreenshotAnalysis`, its response body, and the 500 the route answers when that call throws: the model ends with the data URL and the file summary.
- `Math.random` and its floating-point arithmetic: only the integer `draw` is modelled, with its range 0..44.
- The 2-second delay and all `async`/`await` sequencing; `HandleAnalyze` and `FinishAnalyze` split `handleAnalyze` at its `await`, and no interleaving of requests is modelled.
- All JSX rendering, scrolling (`handleStartAnalysis`, also called by `handleReset`) and the `setTimeout` scroll in `app/page.tsx`, as well as the static pages `app/how-it-works/page.tsx` and `components/icons.tsx`.
- `Strings.ToLower`: lower-cases ASCII letters only. For the comparisons here this is exact. Apart from A–Z, the only characters whose lower case is an ASCII letter are the Kelvin sign (to `k`) and `İ` (to `i` plus a combining dot). No allowed type or extension contains `k`, and the combining dot can never complete one.
- Numbers are `real`; `NaN` and `-0` are not values of the model (both are falsy in JavaScript).
- JavaScript strings are UTF-16; the model's strings are sequences of Unicode scalar values. Nothing modelled depends on the difference.
- The emoji at the end of the four score messages in `app/page.tsx` (lines 96-99) are stored in the file as their UTF-8 bytes misread as Mac Roman (U+F8FF followed by `üíï`, `üòä`, `ü§î`, `ü§ù`). `HomePage` uses the emoji those bytes encode: U+1F495, U+1F60A, U+1F914 and U+1F91D.
- `JsValues.Value` holds an object's properties in a map, so their order is not modelled. `JSON.stringify` output depends on that order, but here `stringify` is a parameter and nothing proved depends on its output.
- The `console.error` logging in the catch blocks (app/api/upload/route.ts:89, app/api/cupid/route.ts:60, app/api/analyze/route.ts:52, app/page.tsx:80) is output only and is not modelled.
- An ok reply to the page's analysis request is taken to be the analysis route's `{score, overallAssessment}` object (`Delivered` always carries one), the only body that route sends on success; an ok body of another shape, such as `null`, is not modelled, so the page's invariant that shown results exist relies on it.
- A non-string `error` field in a failed analysis response is not modelled (`NotOk` carries a string).
