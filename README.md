# clonemate search tool and speech adapter, in Dafny

clonemate is a chat client whose language model can call one tool,
`search_computer_history`. The tool sends the user's query to a remote
search service over HTTP. It turns the JSON records that come back into
text the model can read, and it keeps that text within fixed size budgets.
The repository holds three variants of this tool client. A speech adapter
turns the assistant's replies into audio through the Deepgram
text-to-speech endpoint. It gives each utterance a status, which callers
can cancel and subscribe to.

This project models those four pieces and proves properties of them.

- **JavaScript text primitives** (`js_text.dfy`, module `JsText`).
  - Covers the `\s` class, `trim`, `replace(/\s+/g, ' ')`, `split(/\s+/)`,
    `join`, `slice`, decimal rendering of numbers, `includes`, and
    `toLowerCase`.
  - Word counting and the per-record word cap are in `words.dfy` (module
    `Words`).
  - Records, replies and tool results are in `search_data.dfy` (module
    `SearchData`). So are template interpolation, `||`, engine TypeErrors,
    and a `map` that stops at the first throw.
  - Headline results:
    - collapsing whitespace equals splitting and joining with one space;
    - splitting a space-joined word list gives the list back;
    - `countWords` is the number of inner split tokens, and never less
      than 1.
- **`lib/search.ts`** (`search.dfy`, module `Search`).
  - Each record's body has its `<|d.d|>` timestamp markers removed. The
    removal is one left-to-right pass. The body's whitespace is then
    normalised, and an empty or filler result is dropped.
  - Each line is the record's locale time, then the cleaned text.
  - At most 50 records are formatted and joined with newlines. The result
    is cut to 100000 characters plus a marker.
  - Every failure is re-thrown with a fixed prefix.
- **`lib/search_louis.ts`** (`search_louis.dfy`, module `SearchLouis`).
  - Each record's raw body is kept, cut to 15000 words, and tagged with
    its type and timestamp.
  - An over-budget result is returned as a bare cut string. Anything else
    becomes one structured entry.
  - Failures become a single error entry; `execute` never throws.
- **`lib/search_matt.ts`** (`search_matt.dfy`, module `SearchMatt`).
  - `fetchSearch` is a method. It builds its query with successive
    `append` calls on a `SearchParams` object, then applies the status,
    content-type and JSON checks, leaving at the first one that fails.
  - It is proved to follow the function `CheckReply`, and the order of the
    checks is proved about that function.
  - The ui and audio results are merged in that order. Each record is
    formatted as six labelled lines followed by `---`, with its text cut to
    100000 words.
- **`lib/DeepgramSpeechSynthesisAdapter.ts`** (`speech_synthesis.dfy`,
  module `SpeechSynthesis`).
  - The utterance's closure state is a value `UState`. One step function
    models each operation: `handleEnd`, `cancel`, `subscribe`, and the
    returned unsubscribe.
  - Trace lemmas over arbitrary event sequences prove these properties:
    - there is at most one terminal transition, and exactly one when the
      run leaves the utterance ended;
    - `handleEnd`'s `forEach` invokes no callback twice; a callback that
      subscribes again after the end is queued separately, in `scheduled`;
    - removed callbacks are not invoked;
    - late subscribers are queued.
  - The class `Utterance` performs the same operations in place. Its
    `forEach` is a loop, and every method is proved to follow its step
    function.
  - The class `DeepgramAdapter` creates its `AudioContext` lazily and
    reuses it. It ends a failed utterance with reason `error` and
    re-throws.

Clocks, the network and the audio hardware are parameters.
`toLocaleTimeString` is the function `localeTime`. The search server's
answer is a `Reply` value. For `lib/search_matt.ts`, the server is a
function from the request's query pairs to a `Reply`. The speech endpoint's
outcome is a `Synthesis` value.

Behaviours of the code that the model keeps as written:
- **Empty lines.** In `lib/search.ts`, empty formatter outputs are kept
  and joined with a single `\n` (lib/search.ts:62-65;
  `Search.ExecuteSuccess`).
- **Markers.** Marker removal is a single pass, so a marker can remain
  after it: deleting an inner marker can join the text around it into a
  new one (lib/search.ts:19; `Search.StripCanSpliceMarker`).
- **Missing text.** In `lib/search_matt.ts`, a missing `content.text`
  throws in `countWords`, and the answer becomes the error entry
  (lib/search_matt.ts:101-102; `SearchMatt.MissingTextFails`).
- **Missing `data`.** A parsed body without a `data` field makes
  `lib/search.ts` and `lib/search_louis.ts` throw the engine's TypeError
  on reading `length` (lib/search.ts:59, lib/search_louis.ts:41). In
  `lib/search_matt.ts` the missing field becomes one `undefined` item,
  which throws when formatted (lib/search_matt.ts:93, 101).

## Model

| member | source | states |
|---|---|---|
| JsText.Collapse | lib/search.ts:20 | The result has no two adjacent whitespace characters. Every whitespace character in it is a space. It is empty only for empty input, and it starts with whitespace exactly when the input does. |
| JsText.TrimProperties | lib/search.ts:21 | `trim` leaves no whitespace at either end. It keeps every visible character in order. The result is one contiguous piece of the input. |
| JsText.Trim | lib/search.ts:21 | `trim`, defined as dropping leading then trailing whitespace. Its properties are `JsText.TrimProperties` and `JsText.SplitTrim`. |
| JsText.Split | lib/search_louis.ts:51 | `split(/\s+/)` gives at least one token. No token contains whitespace, only the first and last tokens may be empty, and the first token is the input's leading non-whitespace run. |
| JsText.JoinSplitIsCollapse | lib/search.ts:20 | `s.replace(/\s+/g, ' ')` equals `s.split(/\s+/).join(' ')`, for every string. |
| JsText.SplitJoinRoundTrip | lib/search_louis.ts:51 | Splitting a space-joined well-formed token list gives the list back. |
| JsText.Join | lib/search.ts:65 | `join(sep)`: pieces with one separator between neighbours. `JsText.JoinCounts` counts the separators, and `JsText.SplitJoinRoundTrip` and `JsText.JoinSplitIsCollapse` relate it to `split`. |
| JsText.SplitTrim | lib/search_louis.ts:7 | Splitting the trimmed string drops exactly the empty first and last tokens caused by leading and trailing whitespace. |
| JsText.InnerShape | lib/search_louis.ts:7 | Dropping those end tokens keeps the list well formed and no longer than before. |
| JsText.Take | lib/search.ts:63 | `slice(0, n)` has length min(n, length) and is a prefix of its input. |
| JsText.TakeWellFormed | lib/search_louis.ts:51 | The first n tokens of a split, for n of at least 1, are still a well-formed token list. |
| JsText.JoinTakePrefix | lib/search_louis.ts:51 | Joining the first n tokens gives a prefix of joining them all. |
| JsText.JoinCounts | lib/search.ts:65 | Joining k pieces with a one-character separator adds exactly k - 1 separators and nothing else, counted in both length and occurrences. |
| JsText.Decimal | lib/search.ts:55 | The decimal rendering of a number is a non-empty string of digits, with no leading zero unless the number is 0. |
| JsText.DecimalRoundTrip | lib/search.ts:55 | Reading the rendered status code back gives the same number. |
| JsText.IncludesMiddle | lib/search.ts:55 | A string includes whatever was concatenated into it. |
| JsText.Lower | lib/search_matt.ts:61 | Lower-casing keeps the length and maps each character on its own. |
| JsText.LowerIdempotent | lib/search_matt.ts:61 | Lower-casing twice equals lower-casing once. |
| Words.CountWords | lib/search_louis.ts:7 | `countWords` is at least 1 for every string. |
| Words.CountWordsIsInner | lib/search_louis.ts:7 | `countWords(s)` is the number of split tokens of `s`, once the empty end tokens are dropped. |
| Words.CountWordsBlank | lib/search_louis.ts:7 | The empty string and every all-whitespace string count as one word. |
| Words.CountWordsOfJoin | lib/search_louis.ts:7 | A space-joined token list has as many words as inner tokens, which is at most the number of tokens. |
| Words.WordsAtMostTokens | lib/search_louis.ts:7 | The word count never exceeds the number of split tokens. |
| Words.CapWords | lib/search_louis.ts:50-52 | The word cap, shared with lib/search_matt.ts:104-107: the text, or its first `max` split tokens joined by spaces then `...` when it has more than `max` words. `Words.CapWordsSpec` states what it keeps. |
| Words.CapWordsSpec | lib/search_louis.ts:48-52 | Text within the cap is returned unchanged. Longer text becomes its first `max` split tokens, joined by single spaces, then `...`. That kept part splits back into exactly those tokens, has at most `max` words, and is a prefix of the whitespace-collapsed text. |
| SearchData.Body | lib/search.ts:18 | `transcription \|\| text \|\| ''` is empty exactly when both `transcription` and `text` are missing or empty. |
| SearchData.MapOrThrow | lib/search.ts:64 | `map` succeeds exactly when the callback succeeds on every element, and then maps element by element. Otherwise it fails with the error of the first failing element. |
| SearchData.FrameRecoversParts | lib/search_louis.ts:70-71 | The snippet contains the query and the results verbatim, each recoverable from its fixed offset. |
| SearchData.CutTotal | lib/search.ts:72 | The cut of an over-budget text. `SearchData.CutTotalSpec` gives its exact length and content. |
| SearchData.CutTotalSpec | lib/search.ts:70-73 | A text over 100000 characters is cut to its first 100000, followed by the truncation marker, which gives exactly 100015 characters. |
| Search.DigitsFrom | lib/search.ts:19 | The maximal run of digits from an offset, which a `\d+` match must consume. |
| Search.MatchMarker | lib/search.ts:19 | A match at the front is two non-empty digit groups, and the input begins with the marker made of them. |
| Search.MatchMarkerComplete | lib/search.ts:19 | Every well-formed marker followed by any text is recognised, with its own digit groups. |
| Search.MatchMarkerExact | lib/search.ts:19 | A marker on its own is recognised. |
| Search.StripMarkers | lib/search.ts:19 | Removing markers never makes the text longer. |
| Search.StripDeletesMarker | lib/search.ts:19 | A marker at the front is deleted entirely, and the scan resumes after it. |
| Search.StripWithoutMarkers | lib/search.ts:19 | A text in which no marker starts at any offset is unchanged. |
| Search.NoAngleNoMarker | lib/search.ts:19 | A text without `<` is unchanged. |
| Search.StripOpenBeforeAngle | lib/search.ts:19 | `<\|` followed by `<` is kept, and the scan continues at that `<`. |
| Search.StripCanSpliceMarker | lib/search.ts:19 | `<\|<\|a.b\|>c.d\|>` becomes the marker `<\|c.d\|>`, so a marker can remain after removal. |
| Search.CollapseNormalised | lib/search.ts:20 | Text whose whitespace is already single spaces is unchanged by the whitespace collapse. |
| Search.IsNoise | lib/search.ts:24 | The cleaned texts the formatter drops: empty, `Thank you.`, `You know` and `I'm`. `Search.FormatResult` returns `''` exactly for these. |
| Search.Clean | lib/search.ts:18-21 | Marker removal, then the whitespace collapse, then `trim`. `Search.CleanShape` and `Search.CleanIsWords` state what the result is. |
| Search.CleanShape | lib/search.ts:19-21 | The cleaned text has no whitespace at the ends, no adjacent whitespace, and only spaces as whitespace. It keeps every visible character of the marker-free body. |
| Search.CleanIsWords | lib/search.ts:19-21 | The cleaned text is exactly the words of the marker-free body, joined by single spaces. |
| Search.FormatResult | lib/search.ts:16-32 | Fails exactly when the record has no `content`, with the TypeError reading `transcription`. Returns `''` exactly when the cleaned text is empty or a filler. Otherwise returns `[time] text` and a newline. |
| Search.MissingBodyFormatsEmpty | lib/search.ts:18-26 | A record whose `transcription` and `text` are both missing or empty formats to `''`. |
| Search.NaturalQueryRoundTrip | lib/search.ts:44 | The POST query is `find recent content about ` followed by the user's query, which can be recovered from it. |
| Search.Assemble | lib/search.ts:65-76 | The success value: the lines joined with newlines, cut when over the budget. `Search.ExecuteBounded` bounds its length and `SearchData.CutTotalSpec` describes the cut. |
| Search.Execute | lib/search.ts:40-80 | `execute` given the endpoint's reply. Its behaviour is stated by `Search.ExecuteRejectsNotOk`, `Search.ExecuteSuccess`, `Search.ExecuteBounded`, `Search.ExecuteNoRecords` and `Search.ExecuteOneCleanRecord`. |
| Search.ExecuteRejectsNotOk | lib/search.ts:53-56 | A response that is not ok makes `execute` throw. The message contains the status code in decimal, and that code reads back as the status. |
| Search.ExecuteSuccess | lib/search.ts:62-76 | When the first 50 records have `content` (later ones are never read), exactly min(n, 50) formatter outputs are joined in input order, with empty ones kept and min(n, 50) - 1 newlines added. The result is that text, or its cut when it is over budget. |
| Search.ExecuteBounded | lib/search.ts:70-76 | A successful result is never longer than 100000 characters plus the marker, and is the joined text itself when that fits the budget. |
| Search.ExecuteNoRecords | lib/search.ts:59-65 | `{ data: [] }` gives the empty string, not an error. |
| Search.ExecuteOneCleanRecord | lib/search.ts:29-31 | One record with clean, non-filler text, whose line fits the budget, gives exactly that line: `[time] text` and a newline. |
| SearchLouis.NaturalQuery | lib/search_louis.ts:26 | The POST query is the fixed 26-character prefix followed by the user's query. |
| SearchLouis.LineTextCapped | lib/search_louis.ts:47-52 | A body within 15000 words is kept exactly. A longer one becomes its kept part, with at most 15000 words and a prefix of the collapsed body, followed by `...`. |
| SearchLouis.LineText | lib/search_louis.ts:47-52 | The record's body cut to 15000 words. `SearchLouis.LineTextCapped` states what is kept. |
| SearchLouis.Line | lib/search_louis.ts:46-55 | The `map` callback: `[type] timestamp: text`, then `\n---\n`. `SearchLouis.LineShape` and `SearchLouis.LineTextCapped` state what it gives. |
| SearchLouis.LineShape | lib/search_louis.ts:46-55 | The callback fails exactly on records without `content`, and each line ends `\n---\n`. A record with `content` but no `type` gives a line that starts `[undefined] ` (line 54). |
| SearchLouis.LineOfShape | lib/search_louis.ts:54 | The template begins with the bracketed type and a space, and ends with `\n---\n`, whatever the three interpolated values are. |
| SearchLouis.Formatted | lib/search_louis.ts:35-56 | The status check, the JSON body, then the first 50 lines joined with newlines. `SearchLouis.FormattedFailsIff` gives its exact failure condition and `SearchLouis.FormattedLines` its successful value. |
| SearchLouis.Execute | lib/search_louis.ts:22-85 | `execute` given the endpoint's reply. Its outcomes are stated by `SearchLouis.ExecuteShape`, `SearchLouis.StatusErrorReported` and `SearchLouis.SuccessQuotesResults`. |
| SearchLouis.ExecuteShape | lib/search_louis.ts:61-83 | `execute` returns the bare cut text, of exactly 100015 characters, exactly when the joined text is over budget. Otherwise it returns one entry with an empty url, titled `Error performing search` exactly when a step failed. |
| SearchLouis.FormattedFailsIff | lib/search_louis.ts:35-47 | An answered request fails exactly when its status is not ok, its body is not JSON, `data` is missing, or one of the first 50 records has no `content`. |
| SearchLouis.StatusErrorReported | lib/search_louis.ts:75-83 | A status error becomes the error entry, whose snippet carries the status code, the status text and the body. |
| SearchLouis.SuccessQuotesResults | lib/search_louis.ts:67-74 | Within the budget, the `search results` entry quotes the query and embeds the joined text verbatim, after the query. |
| SearchLouis.FormattedLines | lib/search_louis.ts:44-56 | When the first 50 records have `content` (later ones are never read), exactly min(n, 50) lines are joined in input order, with one newline between neighbours. |
| SearchMatt.SearchParams.constructor | lib/search_matt.ts:60 | A new URL has no query pairs. |
| SearchMatt.SearchParams.Append | lib/search_matt.ts:61-63 | `append` adds one pair at the end and changes nothing else. |
| SearchMatt.RequestQuery | lib/search_matt.ts:60-63 | The query pairs `fetchSearch` appends. `SearchMatt.FetchSearch` is proved to send exactly these, and `SearchMatt.RequestIgnoresCase` states their content. |
| SearchMatt.FetchSearch | lib/search_matt.ts:59-98 | The request carries `q`, `content_type` and `limit`, in that order. The outcome is exactly the ordered checks applied to the server's answer to that request. |
| SearchMatt.CheckReply | lib/search_matt.ts:79-97 | The ordered checks on a reply. `SearchMatt.StatusCheckedFirst`, `SearchMatt.ContentTypeCheckedBeforeJson` and `SearchMatt.CheckAcceptsIff` state their order and outcome. |
| SearchMatt.RequestIgnoresCase | lib/search_matt.ts:60-63 | `q` is the lower-cased query, so keywords that differ only in case send the same request. The two requests differ only in `content_type`, and `limit` is `25`. |
| SearchMatt.StatusCheckedFirst | lib/search_matt.ts:79-83 | A status that is not ok fails whatever the content type and body. The message contains the status, and the body text when there is one, the status text otherwise. |
| SearchMatt.ContentTypeCheckedBeforeJson | lib/search_matt.ts:86-89 | With an ok status, a content type without `application/json` fails whatever the body, with the header (or `null`) in the message. |
| SearchMatt.CheckAcceptsIff | lib/search_matt.ts:91-97 | A reply is accepted exactly when the status is ok, the content type is JSON and the body parses. The `data` field is then returned, and a parse failure gives the fixed message. |
| SearchMatt.FormatItem | lib/search_matt.ts:100-116 | Formatting fails exactly for an `undefined` item, a record without `content`, or one without `content.text`. |
| SearchMatt.FormatItemLines | lib/search_matt.ts:109-115 | The block starts with `Source: ` and has exactly six newlines and six characters more than its seven lines: Source, Type, App, Window, Time, Content, then `---`. |
| SearchMatt.FormatItemCapsWords | lib/search_matt.ts:102-107 | Text within 100000 words is kept. Longer text becomes at most 100000 words, followed by `...`. |
| SearchMatt.Merge | lib/search_matt.ts:27-34 | `Promise.all` then `flat`: the first failure, or the ui items then the audio items. `SearchMatt.MergeOrder` states the order. |
| SearchMatt.Formatted | lib/search_matt.ts:33-36 | `flat`, then `map(formatResult)`, then `join('\n')`. `SearchMatt.FormattedSuccess` gives its value for readable records, and `SearchMatt.ExecuteShape` states when it fails. |
| SearchMatt.MergeOrder | lib/search_matt.ts:27-34 | After `flat` (lines 33-34), the merged list is every ui record in order, then every audio record in order. |
| SearchMatt.ExecuteShape | lib/search_matt.ts:38-54 | There is always one entry, with an empty url. It is the error entry, carrying the message after its prefix, exactly when a search failed or some merged item cannot be formatted. |
| SearchMatt.MissingTextFails | lib/search_matt.ts:101-102 | A record without `content.text`, from either search, turns the answer into the error entry. |
| SearchMatt.Execute | lib/search_matt.ts:18-55 | `execute` against a server. Its outcomes are stated by `SearchMatt.ExecuteShape`, `SearchMatt.MissingTextFails` and `SearchMatt.ExecuteSuccess`. |
| SearchMatt.FormattedSuccess | lib/search_matt.ts:26-35 | With readable records from both searches, every item formats and the result is the ui blocks, then the audio blocks, joined with newlines. |
| SearchMatt.ExecuteSuccess | lib/search_matt.ts:27-44 | With two successful searches, the answer quotes the keyword and embeds every ui block, then every audio block, joined with newlines. |
| SpeechSynthesis.Add | lib/DeepgramSpeechSynthesisAdapter.ts:66 | `set.add` puts a new member last. It keeps members distinct and leaves an existing member's place unchanged. |
| SpeechSynthesis.Delete | lib/DeepgramSpeechSynthesisAdapter.ts:67 | `set.delete` gives the old members minus the one deleted, still distinct. |
| SpeechSynthesis.OnEnd | lib/DeepgramSpeechSynthesisAdapter.ts:20-27 | Once ended, nothing changes. Otherwise the status ends with the given reason, and every current subscriber is invoked once, in set order. |
| SpeechSynthesis.OnSubscribe | lib/DeepgramSpeechSynthesisAdapter.ts:61-68 | After the end, the callback is queued and the no-op returned. Before it, the callback joins the set and its delete function is returned. |
| SpeechSynthesis.OnUnsubscribe | lib/DeepgramSpeechSynthesisAdapter.ts:64-67 | The no-op changes nothing. Delete removes only that callback and leaves the status and the invocations alone. |
| SpeechSynthesis.Step | lib/DeepgramSpeechSynthesisAdapter.ts:52-67 | One event: playback ending is `handleEnd("finished")`, `cancel` stops the source then calls `handleEnd("cancelled")`, and subscribe and unsubscribe follow their step functions. `SpeechSynthesis.StepKeepsInv` and `SpeechSynthesis.RunKeepsInv` state the invariant it keeps. |
| SpeechSynthesis.StepKeepsInv | lib/DeepgramSpeechSynthesisAdapter.ts:24-26 | Each operation keeps the members distinct, keeps the invocations distinct, and invokes nobody while running. |
| SpeechSynthesis.RunKeepsInv | lib/DeepgramSpeechSynthesisAdapter.ts:24-26 | Every event sequence keeps that invariant. |
| SpeechSynthesis.NotifiedAtMostOnce | lib/DeepgramSpeechSynthesisAdapter.ts:25-26 | From a fresh utterance, `handleEnd`'s `forEach` invokes no callback twice. Late subscriptions are queued separately, in `scheduled`, and are not part of this log. |
| SpeechSynthesis.EndedIsFinal | lib/DeepgramSpeechSynthesisAdapter.ts:24 | An ended utterance keeps its status and invokes no one, whatever happens next. |
| SpeechSynthesis.AtMostOneTransition | lib/DeepgramSpeechSynthesisAdapter.ts:24-25 | From running, there is at most one status change, and there is one exactly when the run ends the utterance. |
| SpeechSynthesis.OnlySubscribersNotified | lib/DeepgramSpeechSynthesisAdapter.ts:26 | Every invoked callback and every set member was subscribed during the run, unless it was already there. |
| SpeechSynthesis.UnsubscribedNotNotified | lib/DeepgramSpeechSynthesisAdapter.ts:67 | A callback removed while running, and not subscribed again, is never invoked. |
| SpeechSynthesis.SubscribeIdempotent | lib/DeepgramSpeechSynthesisAdapter.ts:66 | Subscribing the same callback twice while running equals subscribing it once. |
| SpeechSynthesis.LateSubscribeScheduled | lib/DeepgramSpeechSynthesisAdapter.ts:62-65 | After the end, each subscribe queues its callback exactly once more and leaves the set and the invocations alone. |
| SpeechSynthesis.CancelScenario | lib/DeepgramSpeechSynthesisAdapter.ts:57-60 | Two subscribers, a cancel, playback ending, then a second cancel: the utterance ends `cancelled` once, and each subscriber is invoked once. |
| SpeechSynthesis.Utterance.constructor | lib/DeepgramSpeechSynthesisAdapter.ts:17-18 | A new utterance is running with an empty set. The returned object's own `status` field is `running`. |
| SpeechSynthesis.Utterance.HandleEnd | lib/DeepgramSpeechSynthesisAdapter.ts:20-27 | The state after `handleEnd` is `OnEnd` of the state before. The `forEach` loop invokes each subscriber in order. |
| SpeechSynthesis.Utterance.OnPlaybackEnded | lib/DeepgramSpeechSynthesisAdapter.ts:52 | Playback ending is `handleEnd("finished")`. |
| SpeechSynthesis.Utterance.Cancel | lib/DeepgramSpeechSynthesisAdapter.ts:57-60 | `cancel` stops the source, then is `handleEnd("cancelled")`. |
| SpeechSynthesis.Utterance.Subscribe | lib/DeepgramSpeechSynthesisAdapter.ts:61-68 | The new state and the returned handle are those of `OnSubscribe`. |
| SpeechSynthesis.Utterance.Unsubscribe | lib/DeepgramSpeechSynthesisAdapter.ts:64-67 | Calling a returned handle follows `OnUnsubscribe`. |
| SpeechSynthesis.SpeakError | lib/DeepgramSpeechSynthesisAdapter.ts:29-47 | `speak` throws on a rejected request, on a status outside 200 to 299 (with the status and body in the message), and on a failed decode, checked in that order. |
| SpeechSynthesis.DeepgramAdapter.constructor | lib/DeepgramSpeechSynthesisAdapter.ts:7-10 | A new adapter keeps its API key and has no audio context. |
| SpeechSynthesis.DeepgramAdapter.Speak | lib/DeepgramSpeechSynthesisAdapter.ts:12-76 | The audio context is created only when there is none, and reused otherwise. Each call gets a fresh running utterance with no subscribers. On failure it ends with `error` and the message, and the error is re-thrown. |

## Left out

- String lengths and `slice` count Unicode scalar values. JavaScript counts UTF-16 code units, so text outside the Basic Multilingual Plane is cut at different offsets.
- JsText.Lower: lower-cases only the ASCII letters. `toLowerCase` also maps non-ASCII letters, and that Unicode case data is not modelled.
- `Date` parsing and `toLocaleTimeString` are the parameter `localeTime`, because they depend on the host's locale and clock.
- `fetch` is left out: URLs, the ngrok base addresses, HTTP methods and headers, the `Authorization` token, and the request JSON bodies. Each reply is an abstract `Reply` or `Synthesis` value, or a function from the query pairs to a reply. Percent-encoding of the query string by `URL.toString` is not modelled.
- A `data` element that is `null` or not an object, and a top-level `null` body, are not modelled. In the source, the formatters throw on reading `content` of such an element. A `null` body makes lib/search.ts:59 and lib/search_louis.ts:41 throw on reading `data`. In lib/search_matt.ts:93 the same read is inside the `try`, so the search fails with `invalid json response from search endpoint`.
- JSON parsing is a parse result. Record fields are strings or absent. Numbers, objects, arrays and a `data` that is present but not an array are not modelled. The engine's SyntaxError text is carried, not computed.
- Engine TypeError messages follow the V8 wording. Thrown values are modelled by their message. Every thrown value in the model is an `Error`, so the `'unknown error'` branch of `lib/search_matt.ts` is not reachable in it.
- `Promise.all` is sequential: ui, then audio. When both searches fail, the model reports the ui error. The engine reports whichever rejects first in time.
- `estimateTokens` is not modelled because it only feeds logging. All `console` output is not modelled either.
- The zod parameter schemas, tool names and descriptions are not modelled because they are static declarations.
- The React components and the chat route files are not part of this model. So is the assistant runtime they wrap.
- `queueMicrotask` is modelled as a queue of scheduled callbacks. Running them is not modelled.
- Callbacks are opaque identities with no effect. A callback that subscribes, unsubscribes or cancels while `forEach` is visiting the set is not modelled.
- `AudioContext` decoding and playback, `createBufferSource`, `connect` and `start` are not modelled; only the outcome (`Synthesis`) and the call to `stop` (`stopped`) are.
- `text || ""` in the speech request body is not modelled, because the request body is not modelled.
- On failure, the in-place `Speak` still returns the internal utterance so that its ended status can be stated. In the source, that utterance never reaches the caller.
