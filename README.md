# Rizzify request handler, modelled in Dafny

Rizzify's only server code is one serverless HTTP handler, `api/generate.js`. It takes a
short description of a social situation (`who`, `situation`, `vibe`, `style`), refuses
unsafe input, asks a chat-completion service for three flirty or funny opening lines,
and returns at most three of them, each cut to 220 characters and re-checked for
unsafe content.

This project models the handler's decision logic and its text pipeline as pure
functions, and proves what the handler promises about them:

- `Safety`: the guardrail `bad(s)`, a case-insensitive search for eight keywords
  (`hate`, `violence`, `threat`, `harass`, `underage`, `illegal`, `self-harm`, `suicide`).
  It is computed by a substring scan over the ASCII-lower-cased text. It is proved equal
  to a character-by-character, case-ignoring match of some keyword at some position.
- `Text`: `trim()`, `split(/\n+/)` and the marker strip `replace(/^[\-*\d.\s]+/, '')`.
  `\s` is JavaScript's set of whitespace and line-terminator characters.
  Splitting is proved to undo joining and vice versa, up to collapsed newline runs.
- `Ideas`: how the reply text becomes ideas. A parsed `ideas` array is cut to three. Any
  other parsed value gives none. A parse failure, or the text `null` (reading `.ideas`
  of `null` throws), uses the line fallback. Then each idea is truncated and filtered.
- `Handler`: the method gate (405), the guardrail (400), the key check (500), the
  upstream outcome (500) and the 200 response. These are a function of the request,
  the key, the upstream call and the JSON parser; the last two are parameters.
- `Seqs`: the array operations `map`, `filter` and `slice(0, n)`, plus order-preserving
  subsequences.
- `Wrappers`: `Option`, for a value that may be `undefined`.

A reply that parses to any value other than `null` whose `ideas` is not an array
gives an empty list; only a parse failure or `null` reaches the line fallback
(`api/generate.js:60-65`).

## Model

| member | source | states |
|---|---|---|
| `Safety.IsUnsafeMeansKeyword` | api/generate.js:14 | `bad(s)` holds exactly when some keyword matches `s` at some position, each character compared with ASCII case ignored |
| `Safety.AnyOccurs` | api/generate.js:14 | the scan over the keyword list is true exactly when one of the keywords occurs as a contiguous substring (the regex alternation) |
| `Safety.EmptyIsSafe` | api/generate.js:11-14 | `bad('')` is false, so a field that is not given, which defaults to `''`, is never unsafe |
| `Safety.UnsafeSliceMeansUnsafe` | api/generate.js:14 | a keyword found in any slice of a text is found in the whole text, so a slice of a safe text is safe |
| `Safety.CaseInsensitive` | api/generate.js:14 | two texts equal up to ASCII case get the same verdict |
| `Safety.ShortTextIsSafe` | api/generate.js:14 | a text shorter than four characters, the length of the shortest keyword, is safe |
| `Safety.ShoutedKeywordIsUnsafe` | api/generate.js:14 | the upper-case text `SELF-HARM` is unsafe |
| `Seqs.Filter` | api/generate.js:65 | `filter` keeps exactly the elements that pass, never more than it was given (how many times each is kept is `Seqs.FilterMultiplicity`) |
| `Seqs.Take` | api/generate.js:62 | `slice(0, n)` is the prefix whose length is the smaller of `n` and the list's length |
| `Seqs.FilterIsSubsequence` | api/generate.js:69 | `filter` keeps its survivors in their original order |
| `Seqs.FilterAllKept` | api/generate.js:69 | `filter` returns a list unchanged when every element passes |
| `Seqs.FilterMultiplicity` | api/generate.js:65-69 | `filter` keeps each passing element exactly as many times as it occurs in its input, and no failing one |
| `Seqs.FilterPrefix` | api/generate.js:65 | the first `k` survivors of `filter` are exactly what filtering some prefix of the input gives |
| `Text.Trim` | api/generate.js:57 | `trim()` returns a contiguous part of the text, with only whitespace removed on either side, that neither starts nor ends with whitespace |
| `Text.StripMarkers` | api/generate.js:65 | the strip removes a leading run of dashes, stars, digits, dots and whitespace, and the rest does not start with one of them |
| `Text.StripMarkersOf` | api/generate.js:65 | a run of markers followed by a non-marker or by nothing is removed exactly, so the strip is determined uniquely |
| `Text.StripMarkersIdempotent` | api/generate.js:65 | stripping twice is the same as stripping once |
| `Text.SplitNewlineRuns` | api/generate.js:65 | `split(/\n+/)` gives at least one piece, no piece holds a line feed, and every piece between the first and the last is non-empty |
| `Text.SplitJoinLines` | api/generate.js:65 | splitting the pieces joined by single line feeds gives the pieces back, for every list `split` can produce |
| `Text.JoinSplitCollapses` | api/generate.js:65 | joining the pieces of a split gives the text back with each run of line feeds collapsed to one |
| `Ideas.StrippedLinesShape` | api/generate.js:65 | after splitting and stripping, no line holds a line feed or starts with a marker |
| `Ideas.FallbackShape` | api/generate.js:65 | the fallback gives at most three lines, each non-empty, not starting with a marker and without a line feed, in source order; it is exactly the non-empty stripped lines of some prefix of the reply, i.e. the first non-empty ones; when it gives fewer than three, it is every non-empty stripped line, repeats included |
| `Ideas.FallbackCleansBulletedLines` | api/generate.js:65 | a reply of bulleted or numbered lines falls back to the first three texts behind the bullets |
| `Ideas.ExtractIdeasCases` | api/generate.js:59-66 | a parsed array gives its first `min(3, n)` entries in order; another parsed value gives `[]` and no fallback; a parse failure or `null` gives the fallback |
| `Ideas.TruncateKeepsSafe` | api/generate.js:69 | cutting a safe idea to 220 characters leaves it safe |
| `Ideas.PostFilterShape` | api/generate.js:69 | the post-filter never lengthens the list; survivors are at most 220 characters, safe and in input order; a truncated idea survives exactly when it is safe, and as many times as it occurs among the truncated ideas |
| `Ideas.PostFilterIdempotent` | api/generate.js:69 | applying truncate-then-filter a second time changes nothing |
| `Ideas.ClientIdeasShape` | api/generate.js:59-69 | the client gets at most three ideas, each at most 220 characters and safe |
| `Ideas.WellFormedArrayPassesThrough` | api/generate.js:62-69 | a parsed array of short, safe ideas reaches the client as its first three entries, unchanged |
| `Handler.WithDefaults` | api/generate.js:11 | a missing body gives `('', '', 'funny', '')`; with a body, `who`, `situation` and `style` keep their given values or default to `''`, and `vibe` keeps its given value or defaults to `'funny'` |
| `Handler.Decide` | api/generate.js:5-31 | non-POST gives 405 with `Allow: POST`; for a POST, 400 exactly when `who`, `situation` or `style` is unsafe; 500 missing-key exactly when the input is safe and the key is absent or empty; otherwise the defaulted request goes ahead with the key |
| `Handler.Respond` | api/generate.js:56-71 | a reply with string or missing content gives 200 whose ideas are the post-filtered ideas extracted from the trimmed content (or `''`), at most three, each at most 220 characters and safe |
| `Handler.Handle` | api/generate.js:4-76 | every response is 200, 400, 405 or 500; 200 exactly when the checks pass and the upstream reply has usable content, and then its ideas are the post-filtered ideas extracted from the trimmed reply text, at most three, short and safe; a thrown upstream call or non-string content gives 500 "Server crashed" (lines 72-74); every other status carries an error; only 405 sets `Allow` |
| `Handler.NonPostIsRejected` | api/generate.js:5-8 | any method other than POST gets 405, `Allow: POST` and "Method not allowed", whatever the body, key or upstream |
| `Handler.UnsafeIffBadRequest` | api/generate.js:14-17 | a POST gets 400 "Please keep it respectful and safe." exactly when `who`, `situation` or `style` is unsafe |
| `Handler.VibeIsNotChecked` | api/generate.js:11-17 | replacing `vibe` never changes whether, or how, the request is rejected |
| `Handler.RejectionMakesNoUpstreamCall` | api/generate.js:5-34 | a rejected request gets the same response whatever the upstream service and the parser would return, so neither is consulted |
| `Handler.EmptyBodyDefaults` | api/generate.js:11-31 | with no body and a key, the request goes ahead as `who = situation = style = ''`, `vibe = 'funny'` |
| `Handler.UpstreamFailureIsServerError` | api/generate.js:50-54 | an upstream status outside 2xx, whose error text is read successfully, gives 500 "Upstream error" and none of the upstream's text (a failing read of that text is a `Faulted` call and gives "Server crashed") |
| `Handler.WellFormedReplyIsServed` | api/generate.js:56-71 | a reply that parses to an array of short, safe ideas is answered with 200 and its first three entries |

## Left out

- The `fetch` call, its headers, `completion.ok`, `.text()`, `.json()` and the `await`s (api/generate.js:34-56) are network I/O. The upstream outcome is the parameter `complete`, given the defaulted request and the key.
- The system prompt, the user message, the model name and the temperature (api/generate.js:19-26, 41-46) are constant text and a float with no logic. The user message's `JSON.stringify` of the request is represented by passing the request itself to `complete`.
- `JSON.parse` and `JSON.stringify` are library code. The parse, together with the read of `.ideas`, is the parameter `parse`, whose outcome is the datatype `Ideas.Parsed`.
- `String(x)` on the entries of a parsed array is not modelled. Entries are carried as the strings it would give. A JSON object whose `toString` member is not callable makes `String(x)` throw; that path to "Server crashed" is not modelled.
- Body fields that are present but not strings (`null`, numbers, objects), and bodies that are not objects, are not modelled: each field is a string or absent.
- `console.error` logging (api/generate.js:52, 73) is a side effect with no effect on the response.
- `process.env.OPENAI_API_KEY` is the parameter `key`.
- The `res` object's `setHeader`/`status`/`json` calls are replaced by the returned `Response` value.
- A JavaScript string is a sequence of UTF-16 code units; here each code unit that is not a surrogate is the `char` with that value, and each surrogate code unit, which no Dafny `char` can be, is stood in for by a `char` outside the Basic Multilingual Plane that is neither whitespace, nor a marker, nor an ASCII letter. With that encoding `Truncate` counts code units as `slice(0, 220)` does and can split a surrogate pair as it can.
