# Admin console views: streamed API tester and account manager

This project models the two pieces of sequential logic in the React admin console
of an OpenAI-compatible proxy. The network, the browser and the React renderer
are not part of the model.

- The **API tester** view (`ApiTester.jsx`) sends one chat message. It goes either
  to the streamed completion endpoint, or, when an account is selected, to the admin
  account-test endpoint. A direct test picks its key, reports non-2xx replies and
  exceptions (an abort is reported as information), and decodes the streamed body.
  The body decoder appends each chunk to a buffer and splits the buffer at `'\n'`.
  The unterminated last piece is held back. Every complete line is trimmed and kept
  only when it starts with `data: `. The `[DONE]` sentinel is skipped, and every
  other payload is parsed. Each parsed delta appends its `content` and
  `reasoning_content` to two running accumulators.
- The **account manager** view (`AccountManager.jsx`) adds keys and accounts after
  checking its forms. It validates or tests one account at a time, raising and
  lowering a per-identifier in-flight flag. It runs "validate all" and "test all"
  batches, which check every account in list order, publish their progress after
  each one and announce a `Completed: n/N` summary. It keeps the latest
  queue-status snapshot.

Modules:

- `JsString` models the JavaScript string operations the views use:
  `split('\n')`, `trim()` with JavaScript's exact whitespace set, and
  `startsWith`.
- `Notices` holds the `onMessage` toasts and the decimal text of interpolated numbers.
- `StreamDecoder` is the line classifier and the accumulator fold. It defines
  the meaning of a whole stream text, and proves:
  - re-splitting the held-back buffer with the next chunk continues the split
    of the whole text (`ReadOneMore`, `HeldBack`, `ReadStep`). The read loop
    `ApiTesting.ApiTester.ReadStream` builds on these, so its postcondition
    states that the decoder is independent of chunking;
  - accumulators only grow by appending;
  - skipped lines are inert;
  - trailing text is ignored.
- `ApiTesting` holds key selection and the error texts. Its `ApiTester` class
  holds the view's state, with the stop button, the read loop, the direct test
  and the send routing as methods.
- `AccountManagement` holds the pure helpers, the batch specification functions
  and their lemmas. Its `AccountManager` class holds the view's state, with the
  forms, the single checks, the queue poll and the batch loop as methods.

The code's behaviour is modelled exactly, including where a reader might expect
something else:

- The `[DONE]` payload does not end decoding. The loop `continue`s past it, so
  frames after it are still appended (`DoneDoesNotStopDecoding`).
- When the stream ends, text after the last newline is never decoded. The buffer is
  not flushed (`TrailingSegmentIgnored`).

Oracles and parameters stand in for everything external:

- `JSON.parse` followed by `choices?.[0]?.delta` is an abstract
  `Parser = string -> Option<Delta>`.
- The network's behaviour is an oracle argument: `DirectOutcome`,
  `AccountOutcome`, the batch's `Outcome` list, `PollOutcome` and `SubmitReply`.
- The body arrives as a sequence of already-decoded text chunks.
- `confirm()` is a boolean parameter.
- `config.keys` and `config.accounts` are sequence parameters.
- `onRefresh()` is counted in `refreshes`. Each `onMessage` call is appended to
  `notices`, and each request sent is appended to `requests`.
- The ghost field `published` records every value `batchProgress` takes.

## Model

| member | source | states |
|---|---|---|
| ApiTesting.ApiTester.constructor | webui/src/components/ApiTester.jsx:24-33 | The initial view state: the chat model, the default message, no key, no account, no response, nothing loading or streaming, and empty accumulators. |
| ApiTesting.ApiTester.StopGeneration | webui/src/components/ApiTester.jsx:38-45 | An abort is sent exactly when a controller is live, and the controller is dropped. Loading and streaming are off afterwards. |
| ApiTesting.SelectKey | webui/src/components/ApiTester.jsx:59-65 | There is a key exactly when the typed key or the first pool key is non-empty. The typed key wins, otherwise the first pool key is used, and a chosen key is never empty. |
| ApiTesting.ErrorText | webui/src/components/ApiTester.jsx:81-87 | A non-2xx reply is reported with the body's `error.message` when it is non-empty, otherwise with `Request failed`. The text is never empty. |
| ApiTesting.ExceptionNotice | webui/src/components/ApiTester.jsx:128-134 | The notice is informational exactly for an abort, and then reads `Generation stopped`. Any other exception gives an error reading `Network error: ` followed by the exception's message. |
| ApiTesting.ApiTester.Catch | webui/src/components/ApiTester.jsx:128-134 | An abort adds an info notice and leaves the response alone. Any other error adds an error notice and sets the response to a failure carrying the message. |
| ApiTesting.ApiTester.ProcessLines | webui/src/components/ApiTester.jsx:104-126 | The inner loop leaves the accumulators equal to the fold of `Step` over the classified lines, starting from their old values. |
| ApiTesting.ApiTester.ReadChunk | webui/src/components/ApiTester.jsx:100-102 | After a read, the complete lines of buffer plus chunk are decoded. The returned buffer is the last piece of the split, so these lines followed by the buffer are exactly that split. |
| ApiTesting.ApiTester.ReadStream | webui/src/components/ApiTester.jsx:92-127 | The accumulators end as the decoding of the complete lines of the concatenated chunks, a function of the text alone and not of how it was chunked. Its loop invariants say, after every read: the buffer holds no newline; the lines processed so far are the complete lines of the text read so far; those lines plus the buffer are its split. |
| ApiTesting.ApiTester.Exchange | webui/src/components/ApiTester.jsx:67-134 | The completion request is sent with the key, model and message. A rejection goes through the catch clause. A non-2xx reply sets a failure response and an error notice and clears loading and streaming; no other outcome touches those two flags. A streamed reply sets the status response and decodes the body, and a read that breaks the stream is reported afterwards. |
| ApiTesting.ApiTester.Begin | webui/src/components/ApiTester.jsx:50-56 | A direct test starts loading and streaming, clears the response and both accumulators, and installs a live controller. |
| ApiTesting.ApiTester.RefuseWithoutKey | webui/src/components/ApiTester.jsx:60-65 | Without a key, one error notice asks for a key, and the early return runs the finally clause, which clears loading, streaming and the controller. |
| ApiTesting.ApiTester.ExchangeThenSettle | webui/src/components/ApiTester.jsx:67-139 | With a key, the exchange's outcome stands and the finally clause clears loading, streaming and the controller. |
| ApiTesting.ApiTester.DirectTest | webui/src/components/ApiTester.jsx:47-140 | A test started while loading changes nothing. Otherwise, in every case, loading, streaming and the controller are cleared and the view settings are kept. With no key, an error notice is raised and no request is sent. A rejected or non-2xx request leaves the accumulators empty. A streamed one leaves them equal to `DecodeText` of the whole received text. |
| ApiTesting.AccountTestNotice | webui/src/components/ApiTester.jsx:163-167 | The level follows the reply's `success`, and the text starts with the account identifier. A success reads `account: Test Success (<time>ms)` with the response time, or `undefined` when it is absent. A failure reads `account: <message>` with the server's message. |
| ApiTesting.ApiTester.SendTest | webui/src/components/ApiTester.jsx:142-178 | With an account selected, the account is tested regardless of `loading`: the reply or the error is shown and announced, loading ends, and the streaming state is untouched. Otherwise the call is exactly a direct test. |
| StreamDecoder.ClassifyMeaning | webui/src/components/ApiTester.jsx:105-112 | A line is blank exactly when it is all whitespace. It carries a payload exactly when, trimmed, it starts with `data: `. The payload is the `[DONE]` sentinel, a payload the parser rejects, or the frame the parser returns. |
| StreamDecoder.Classify | webui/src/components/ApiTester.jsx:105-115 | A line is blank exactly when it trims to nothing. Only a trimmed line that starts with `data: ` yields the sentinel, a malformed payload or a frame. A malformed payload is not the sentinel and is one the parser rejects. |
| StreamDecoder.Step | webui/src/components/ApiTester.jsx:115-122 | A frame appends its content to the content and its reasoning to the thinking (the guards against empty fields make no difference), and every other kind of line leaves both unchanged. |
| StreamDecoder.DataLine | webui/src/components/ApiTester.jsx:105-112 | `data: ` followed by a payload without surrounding whitespace is classified by that payload: the sentinel, a malformed payload, or the parsed frame. |
| StreamDecoder.ReadOneMore | webui/src/components/ApiTester.jsx:100-102 | Re-splitting the held-back buffer with the next chunk appended continues the split of the text read so far. |
| StreamDecoder.HeldBack | webui/src/components/ApiTester.jsx:100-102 | When the processed lines followed by the buffer are the split of the text read so far, the processed lines are exactly the text's complete lines and the buffer holds no newline. |
| StreamDecoder.ReadStep | webui/src/components/ApiTester.jsx:100-126 | One read keeps the read loop's invariant. Suppose the processed lines plus the buffer split the text read so far, and the accumulators hold the processing of those lines. Then after the complete lines of buffer plus chunk are processed and the last piece is kept as the buffer, the same holds for the text with the chunk appended. |
| StreamDecoder.AccumulateAppend | webui/src/components/ApiTester.jsx:104-126 | Processing two runs of lines in turn is processing their concatenation. |
| StreamDecoder.EarlierIsPrefixOfLater | webui/src/components/ApiTester.jsx:116-121 | Accumulators only grow by appending: the content and thinking after some lines are prefixes of those after any further lines. |
| StreamDecoder.FoldOnlyAppends | webui/src/components/ApiTester.jsx:116-121 | Folding any kinds of lines over accumulators keeps the old content and thinking as prefixes of the new. |
| StreamDecoder.NonFramesCanBeDropped | webui/src/components/ApiTester.jsx:105-109 | Lines that are not parsed frames can be removed from anywhere in the stream without changing the result, and the lines after them are still processed. |
| StreamDecoder.NonFramesAreInert | webui/src/components/ApiTester.jsx:105-109 | A run of blank, non-data, sentinel or malformed lines leaves the accumulators unchanged. |
| StreamDecoder.MalformedFrameSkipped | webui/src/components/ApiTester.jsx:111-125 | A `data: ` line whose payload does not parse contributes nothing. The result equals that of the stream without it, so later frames are still appended. |
| StreamDecoder.DoneDoesNotStopDecoding | webui/src/components/ApiTester.jsx:109 | The `[DONE]` line is skipped and decoding goes on. The result equals that of the stream without the sentinel line. |
| StreamDecoder.TrailingSegmentIgnored | webui/src/components/ApiTester.jsx:97-102 | Appending newline-free text to a stream does not change what it decodes to, so an unterminated last segment is never processed. |
| StreamDecoder.DecodeLines | webui/src/components/ApiTester.jsx:100-104 | A text written as newline-terminated lines plus an unterminated tail decodes to the processing of exactly those lines, in order. |
| StreamDecoder.TwoFramesThenDone | webui/src/components/ApiTester.jsx:96-127 | Two content frames followed by `data: [DONE]`, each newline-terminated, decode to the two contents concatenated in order, with empty thinking. |
| JsString.TrimSpec | webui/src/components/ApiTester.jsx:105 | `trim()` removes whitespace only: the input is the result surrounded by whitespace. The result neither starts nor ends with whitespace, and it is empty exactly when the input is all whitespace. |
| JsString.JoinSplit | webui/src/components/ApiTester.jsx:101 | Joining the pieces of `split('\n')` with newlines gives the text back. |
| JsString.SplitJoin | webui/src/components/ApiTester.jsx:101 | Splitting newline-free pieces joined with newlines gives the same pieces back. |
| JsString.SplitConcat | webui/src/components/ApiTester.jsx:100-102 | Splitting `x + y` keeps the complete pieces of `x` and splits the last piece of `x` with `y` appended, which is why holding the last piece back in the buffer is sound. |
| JsString.Split | webui/src/components/ApiTester.jsx:101 | `split('\n')` yields at least one piece, so the buffer's `pop()` always has a piece to take. |
| JsString.SplitPiecesNoNewline | webui/src/components/ApiTester.jsx:101 | No piece of `split('\n')` contains a newline. |
| JsString.SplitJoinLines | webui/src/components/ApiTester.jsx:101-102 | Newline-free lines each followed by a newline, then a newline-free tail, split into those lines and the tail, so all pieces but the last are exactly the lines. |
| AccountManagement.AccountManager.constructor | webui/src/components/AccountManager.jsx:18-28 | The initial view state: forms closed and blank, no flags, no batch running, empty progress and no queue snapshot. |
| AccountManagement.NextSnapshot | webui/src/components/AccountManager.jsx:32-42 | A successful poll replaces the snapshot, and a non-OK or thrown poll keeps the previous one. |
| AccountManagement.AccountManager.FetchQueueStatus | webui/src/components/AccountManager.jsx:32-42 | A poll sends a status request and sets the snapshot to `NextSnapshot` of the old snapshot and the poll. |
| AccountManagement.LastSuccessfulSpec | webui/src/components/AccountManager.jsx:32-42 | There is a last successful poll exactly when some poll succeeded. Its status is that of a successful poll with no successful poll after it. |
| AccountManagement.LatestSuccessfulPollWins | webui/src/components/AccountManager.jsx:32-42 | After any run of polls, the snapshot is that of the latest successful poll, or the earlier snapshot when none succeeded. |
| AccountManagement.KeyToSubmit | webui/src/components/AccountManager.jsx:51-57 | Nothing is submitted exactly when the typed key is all whitespace. Otherwise the trimmed key is submitted, and it is non-empty with no whitespace at either end. |
| AccountManagement.CanAddAccount | webui/src/components/AccountManager.jsx:91 | The add-account form may be submitted exactly when it has a password and the account it describes has a non-empty identifier. |
| AccountManagement.SubmitNotice | webui/src/components/AccountManager.jsx:59-69 | The notice is a success exactly when the add request was accepted, and it is never informational. An accepted request shows the form's success text, a refusal shows the server's `detail` or `Failed to add`, and a thrown request shows `Network error`. |
| AccountManagement.AccountManager.AddKey | webui/src/components/AccountManager.jsx:50-73 | A whitespace-only key changes nothing and sends nothing. Otherwise the trimmed key is sent and the reply is announced. On success the form is cleared and closed and the lists are refreshed. Loading ends in every case. |
| AccountManagement.AccountManager.AddAccount | webui/src/components/AccountManager.jsx:90-116 | A form without a password, or with neither email nor mobile, is refused with an error notice and nothing is sent. Otherwise the form is sent as typed, the reply is announced, and on success the form is cleared and closed and the lists are refreshed. |
| AccountManagement.KeyPreview | webui/src/components/AccountManager.jsx:303 | The preview is the first 16 characters of the key (all of a shorter key) followed by `****`. |
| AccountManagement.PreviewHidesTheRest | webui/src/components/AccountManager.jsx:303 | Keys that agree on their first 16 characters have the same preview. |
| AccountManagement.Identifier | webui/src/components/AccountManager.jsx:164 | An account is identified by its email when that is non-empty, otherwise by its mobile. The identifier is empty exactly when both are. |
| AccountManagement.WithFlag | webui/src/components/AccountManager.jsx:134 | `{ ...flags, [id]: v }` sets the flag of `id` and leaves the presence and value of every other identifier's flag unchanged. |
| AccountManagement.SetThenClear | webui/src/components/AccountManager.jsx:134-147 | Raising and then lowering a flag leaves the identifier not in flight and every other identifier as it was. |
| AccountManagement.FlagUpdatesCommute | webui/src/components/AccountManager.jsx:188-201 | Flag updates for different identifiers commute, so overlapping checks of different accounts do not disturb each other's flags. |
| AccountManagement.AccountManager.BeginCheck | webui/src/components/AccountManager.jsx:133-140 | The check raises the flag of its identifier in its own operation's map only, and sends the request. |
| AccountManagement.AccountManager.FinishCheck | webui/src/components/AccountManager.jsx:141-148 | The reply or error is announced, the lists are refreshed after a reply, and the identifier's flag is lowered in its operation's map only. |
| AccountManagement.CheckNotice | webui/src/components/AccountManager.jsx:142-199 | The level is success exactly for a reply with a true verdict, and never informational. A reply's text starts with the identifier: a successful test shows `id: Success (<time>ms)`, and any other reply shows `id: <message>`. A thrown call gives `Validation failed: ` or `Test failed: ` followed by the message. |
| AccountManagement.AccountManager.CheckAccount | webui/src/components/AccountManager.jsx:187-203 | A single check sends one request and announces once. Its identifier ends not in flight, and every other flag, in both maps, is unchanged. |
| AccountManagement.ItemResult | webui/src/components/AccountManager.jsx:173-176 | An entry carries the account's identifier and the reply's message. Its success is the reply's verdict, and false for a thrown call. Only a test reply records a response time. |
| AccountManagement.BatchResultsInOrder | webui/src/components/AccountManager.jsx:162-177 | Entry `i` of the results is the entry for account `i` and its call's outcome: one entry per account, in list order. |
| AccountManagement.BatchResultsPrefix | webui/src/components/AccountManager.jsx:173-176 | Entries are only pushed: the results after `m` accounts are a prefix of the results after any later account. |
| AccountManagement.SnapshotsAreProgress | webui/src/components/AccountManager.jsx:157-179 | The first snapshot is `{current: 0, total: N, results: []}`. In snapshot `k`, the number of results equals `current` equals `k`, and `current` is at most `total` = N. Its results are those of the first `k` accounts, and each snapshot's results extend the previous ones by exactly one entry. |
| AccountManagement.SnapshotAt | webui/src/components/AccountManager.jsx:179 | The snapshot published after the `k`th account is `{current: k, total: N, results}` holding the first `k` entries. |
| AccountManagement.CallsInOrder | webui/src/components/AccountManager.jsx:162-171 | The batch sends one check per account, in list order, under the account's identifier. |
| AccountManagement.SuccessCountExtremes | webui/src/components/AccountManager.jsx:174 | The count is zero exactly when no entry succeeded, and equals the number of entries exactly when all did. |
| AccountManagement.CountMatchesOutcomes | webui/src/components/AccountManager.jsx:173-177 | The number of successful entries equals the number of calls whose reply had a true verdict. Thrown calls and false verdicts do not count. |
| AccountManagement.CountAgrees | webui/src/components/AccountManager.jsx:173-174 | Entries whose verdicts agree, position by position, with the outcomes of the calls count the same as those outcomes' true verdicts. |
| AccountManagement.AccountManager.CheckNext | webui/src/components/AccountManager.jsx:163-179 | Iteration `i` sends the check of account `i` and pushes its entry, a thrown call being recorded as a failure. It takes a state whose results, count, published snapshots and sent calls are those of the first `i` accounts to the same for the first `i + 1`, with the progress republished as `{i + 1, N, results}`. |
| AccountManagement.AccountManager.CheckEach | webui/src/components/AccountManager.jsx:157-180 | The loop resets the progress and checks every account without stopping. It ends with progress `{N, N, results}`, where the results are one entry per account, the count is the number of successful entries, and exactly the snapshots and calls of `Snapshots` and `Calls` were published and sent. |
| AccountManagement.AccountManager.Conclude | webui/src/components/AccountManager.jsx:182-184 | The end of a batch announces `Completed: count/N` once with the operation's suffix, refreshes the lists once and lowers only the batch's own flag. |
| AccountManagement.SummaryText | webui/src/components/AccountManager.jsx:182 | The summary reads `count/N`: `Completed: `, then the digits of the count, a slash and the digits of the total, and then exactly ` valid` for a validation batch or ` available` for a test batch (line 236). |
| AccountManagement.AccountManager.RunBatch | webui/src/components/AccountManager.jsx:151-239 | Without confirmation, or with no accounts, nothing changes. Otherwise every account is checked in order and the summary `Completed: count/N` is announced. The lists are refreshed, and the batch's own flag is lowered while the other batch flag and the single-check flags are unchanged. |
| AccountManagement.ThreeAccountExample | webui/src/components/AccountManager.jsx:162-182 | With three accounts whose second call throws, the second entry is a failure under that account's mobile identifier, and the summary reads `Completed: 2/3 valid`. |
| Notices.Decimal | webui/src/components/AccountManager.jsx:182 | The decimal text of a count is non-empty, all digits, and has no leading zero. |
| Notices.DecimalRoundTrip | webui/src/components/AccountManager.jsx:182 | Reading back the digits of the rendered count gives the count. |
| Notices.OptionalNumber | webui/src/components/AccountManager.jsx:196 | An interpolated response time is its decimal digits when present and `undefined` when absent, as in ApiTester.jsx line 164. |

## Left out

- Network requests, `res.json()`, `TextDecoder` and the `AbortController` are not modelled. Their results are oracle parameters, and the decoder receives already-decoded text chunks. An abort is modelled by the outcome it causes: `AbortError` from `fetch` or from a read.
- `JSON.parse` and the lookup of `choices[0].delta` are not modelled. Both are the abstract `Parser` parameter, and `console.error` logging of malformed frames and failed polls is left out.
- Delta fields that are not strings (numbers, objects), which JavaScript would coerce when appending, are not modelled. A `Delta` holds two strings.
- JavaScript strings are UTF-16 code units, and the model uses Dafny characters (Unicode scalar values). Surrogate pairs split across chunks are not modelled.
- Notices.Decimal: renders only non-negative integers. A fractional or negative `response_time` from the server is not modelled.
- ApiTesting.AccountTestNotice: models the reply's `message` as a string. A missing message, which JavaScript interpolates as `undefined`, is not modelled.
- AccountManagement.CheckNotice: models the reply's `message` as a string. A missing message, which JavaScript interpolates as `undefined`, is not modelled.
- React's asynchronous, batched state updates are modelled as immediate assignments, in the order the handlers make them. The re-entry guard of a direct test reads the `loading` field directly.
- AccountManagement.AccountManager.CheckAccount: covers a check with nothing overlapping it. Overlapping single checks are covered only by the separate `BeginCheck` and `FinishCheck` methods and by `FlagUpdatesCommute`, not by an interleaving semantics.
- The five-second queue-status poller and the React effect that starts it (`AccountManager.jsx:44-48`) are not modelled. Only the replace-on-success rule of one poll and of a run of polls is.
- `deleteKey` and `deleteAccount` are not modelled, because they are outside the modelled core.
- All JSX rendering is left out, and so is the progress-bar percentage, a floating-point division.
- The model and account selectors and the text inputs are left out. The view's setters only copy user input into fields that the model takes as given.
