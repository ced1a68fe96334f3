# CommitAI CLI: a Dafny model of the generation client, the login handshake and the git helpers

CommitAI is a command-line tool. It asks a backend service for commit messages that describe the staged diff, lets the developer pick one, and commits with it. The token for the backend comes from `loginCommand` (`src/commands/login.js`): the browser goes to the backend's GitHub login page, and a listener on `localhost:9900` receives the token. Neither entry point (`src/index.js:7-21`, `bin/commitai.js:12-16`) dispatches a `login` command, so `loginCommand` is reachable only as a module export.

This project models the decision logic of that tool and proves properties about it:

- `CoreAi` models `src/core/ai.js`, the backend client `generateCommitMessages`. Its inputs are the outcome of `readConfig()`, the outcome of `getChangedFiles()`, the `API_BASE` environment variable and the outcome of the HTTP exchange. It yields the request sent, if any, and what the async call settles with. That is the "please login" candidate, the generic fallback candidate, the suggestions renumbered 1..N, or a rejection.
- `MockAi` models `src/utils/ai.js`, the fixed three-suggestion generator the `commit` command actually calls.
- `CallbackServer` models `src/core/localCallbackServer.js`. It covers how the token is read from the callback's query string. The listener is a class whose request handler closes it and settles the single promise once.
- `Login` models `src/commands/login.js`. It covers the `API_BASE` default and `encodeURIComponent` of the callback address inside the login URL. It also covers the `loginCommand` sequence: open the browser, wait for the handshake, and write the token only once the handshake has resolved.
- `Git` models `src/utils/git.js`. It covers JavaScript's `trim()`, the blank-diff check of `getStagedDiff` with its exit status 1, and the unescaped shell string of `makeCommit` whose failure is swallowed.
- `JsValue`, `Candidates` and `Wrappers` are shared:
  - the JavaScript values a parsed JSON body can hold, with truthiness and property reads;
  - the `{id, message}` records and their 1-based numbering;
  - `Option` and `Result`.

Behaviour of the code worth knowing:

- An HTTP 429 never yields `null`. In `src/core/ai.js` the 429 check comes after the `success` check. Reaching it also throws a ReferenceError, because `chalk` is not imported there, and the `catch` turns that into the generic fallback.
- `readConfig()` and `getChangedFiles()` sit before the `try`. If either throws, the call rejects; neither failure becomes a fallback.
- An empty `suggestions` array gives an empty candidate list, not a fallback.
- A callback with an empty `token=` fails just like one without the parameter.
- A request whose target `new URL` cannot parse (such as `//a:99999`, which a browser sends for `http://localhost:9900//a:99999`) makes the handler throw before it answers, closes or settles anything. Nothing catches it, so the process ends.

## Model

| member | source | states |
|---|---|---|
| `JsValue.Get` | src/core/ai.js:37-47 | Reading `data.success`, `data.suggestions` or `s.message` throws exactly on `null`/`undefined`. On an object it gives the member (`undefined` if absent); on any other value it gives `undefined`. |
| `JsValue.Lookup` | src/core/ai.js:35-37 | A parsed object's member, with JSON.parse's last-wins rule: `undefined` when no member has the key; when some member has it, the value of the last member with that key. |
| `JsValue.EnvOr` | src/commands/login.js:5 | `process.env.X \|\| fallback`: an unset or empty variable gives the fallback, any other value is used as given. |
| `Candidates.NumberedFrom` | src/core/ai.js:45-48 | Numbering keeps the length. Element i carries id `first + i` and exactly the i-th message. |
| `Candidates.Numbered` | src/utils/ai.js:9 | `map((m, i) => ({ id: i + 1, message: m }))`: same length, element i has id i+1 and the i-th message, ids strictly increasing (so distinct). |
| `Candidates.MessagesOfNumberedFrom` | src/core/ai.js:45-48 | Numbering loses and reorders nothing: the messages of the numbered list are exactly the input messages. |
| `Candidates.MessagesOfNumbered` | src/utils/ai.js:9 | The same for ids starting at 1. |
| `CoreAi.JoinShape` | src/core/ai.js:20 | `files.join(", ")` is "" for no paths, starts with the first path, ends with the last, and has ", " right after the first path when there are two or more. |
| `CoreAi.SplitJoin` | src/core/ai.js:20 | `files.join(", ")` is inverted by splitting at ", " whenever no path contains ", ". |
| `CoreAi.FilesListSpec` | src/core/ai.js:19-20 | `FilesList`, the `filesList` sent, is the literal "unknown files" for an empty list. Otherwise it is the paths joined so that splitting at ", " recovers them. |
| `CoreAi.GenerateRequest` | src/core/ai.js:23-33 | The request goes to `API_BASE + "/api/generate"` by POST. Its `Content-Type` header is `application/json` and its `Authorization` header is `Bearer <token>`. Its body carries the diff and the files list unchanged. |
| `CoreAi.MessagesOf` | src/core/ai.js:45-48 | The `s.message` of every suggestion in order. It fails exactly when some suggestion is `null`/`undefined`. |
| `CoreAi.Renumbered` | src/core/ai.js:45-48 | `data.suggestions.map(...)` succeeds exactly when `suggestions` is an array whose elements are all readable. Then it gives one candidate per suggestion, in order, candidate i having id i+1 and the i-th `message`. |
| `CoreAi.Settle` | src/core/ai.js:35-53 | The `try`/`catch` as written. An unreachable service, an unparseable body, a falsy `success` (whatever the status) and a 429 all yield the single fallback candidate. It never yields `null`. |
| `CoreAi.SettleIntended` | src/core/ai.js:41-44 | With `chalk` bound, the reply is `null` exactly when `success` is truthy and the status is 429. Every other reply equals the as-written one. |
| `CoreAi.Generate` | src/core/ai.js:6-54 | If `readConfig()` throws: a rejection, no request. Without a truthy token: the "please login first" candidate and no request. If listing files throws: a rejection, no request. These are the only rejections. Otherwise: exactly one POST to `API_BASE + "/api/generate"`, where `API_BASE` is the environment variable or "http://localhost:4000". It has JSON content type, `Authorization: Bearer <token>` and body `{diff, filesList}`, and the reply is what `Settle` gives. Never `null`. |
| `CoreAi.DefaultEndpoint` | src/core/ai.js:6 | With `API_BASE` unset or empty, the request goes to "http://localhost:4000/api/generate". |
| `CoreAi.SuccessRenumbers` | src/core/ai.js:45-48 | With a truthy `success`, a status other than 429 and readable suggestions, the reply has one candidate per suggestion, in order, with id i+1 and the i-th `message`. |
| `CoreAi.SettleOutcomes` | src/core/ai.js:37-53 | Every reply is either the fallback or the renumbered suggestions of a successful, non-429, well-formed response. |
| `CoreAi.EmptySuggestionsGiveEmptyList` | src/core/ai.js:45-48 | `suggestions: []` with a truthy `success` and a status other than 429 yields an empty list, not the fallback. |
| `CoreAi.RateLimitYieldsFallback` | src/core/ai.js:41-44 | A 429 response with `success: true` yields the fallback as written, and `null` as intended. |
| `CoreAi.SingleSuggestionExample` | src/core/ai.js:45-48 | One suggestion "feat(x.js): add log statement" gives `[{id: 1, message: "feat(x.js): add log statement"}]`. |
| `MockAi.GenerateMock` | src/utils/ai.js:1-9 | Whatever the diff: exactly three candidates. They are "feat: add new feature for user profile", "fix: resolve bug in login handler" and "chore: update dependencies", in that order. Candidate i has id i+1. |
| `MockAi.MockIdsAndIndependence` | src/utils/ai.js:1-9 | The ids are 1, 2, 3 and the result does not depend on the diff. |
| `CallbackServer.QueryOf` | src/core/localCallbackServer.js:6 | The query of the request target never contains '#'. |
| `CallbackServer.SplitOn` | src/core/localCallbackServer.js:7 | Splitting the query at '&' gives at least one piece, and no piece contains '&'. |
| `CallbackServer.SplitOnGlues` | src/core/localCallbackServer.js:7 | The pieces, glued back with '&' between them, are exactly the query. |
| `CallbackServer.SplitOnAppend` | src/core/localCallbackServer.js:7 | A piece free of '&' followed by '&' splits off as the first piece, and the rest splits on its own. |
| `CallbackServer.SplitAtEquals` | src/core/localCallbackServer.js:7 | A pair splits at its first '=': the name has no '=', and name, '=' and value rebuild the pair. A pair without '=' is all name with an empty value. |
| `CallbackServer.PlusToSpace` | src/core/localCallbackServer.js:7 | Every '+' becomes a space and nothing else changes. |
| `CallbackServer.FirstValue` | src/core/localCallbackServer.js:7 | `searchParams.get` finds nothing exactly when no non-empty pair has the name. |
| `CallbackServer.FirstValueIsFirstMatch` | src/core/localCallbackServer.js:7 | What `get` finds is the value of a pair with that name, and no earlier pair has the name. |
| `CallbackServer.QueryParam` | src/core/localCallbackServer.js:6-7 | `new URL(req.url, base).searchParams.get(name)`: a value found never contains '&' or '#'. |
| `CallbackServer.QueryParamRoundTrip` | src/core/localCallbackServer.js:6-7 | `name=value` is read back as the undecoded text `value`. This holds after any pairs with other names and whatever parameters follow. When `value` has no '%' this is also the decoded value `get` returns. |
| `CallbackServer.NoQueryNoToken` | src/core/localCallbackServer.js:6-7 | A target without '?' has an empty query and no token. |
| `CallbackServer.SettleOnce` | src/core/localCallbackServer.js:4 | The promise leaves `Waiting` on its first settlement and keeps that state afterwards. |
| `CallbackServer.HandlerSteps` | src/core/localCallbackServer.js:9-114 | The response is ended, then the listener closed, then the promise settled once, as the last step. It is rejected exactly when the token is absent; otherwise the last step resolves it with the query's non-empty token. |
| `CallbackServer.CallbackListener.Listen` | src/core/localCallbackServer.js:117 | The listener starts on port 9900, open, with the promise waiting and nothing done yet. |
| `CallbackServer.CallbackListener.HandleRequest` | src/core/localCallbackServer.js:5-115 | A target that `new URL` rejects changes nothing: the listener stays open, the promise pending, no step is taken. After any other request the listener is closed. A missing or empty token: the body "❌ Authentication failed", close, reject "No token". Otherwise: `Content-Type: text/html` (set twice), the confirmation page, close, resolve with the token. The promise is settled only if it was still waiting. |
| `CallbackServer.HandlerOrder` | src/core/localCallbackServer.js:9-17 | On both paths the listener is closed immediately before the promise is settled. On success the header is set before the page is sent, and the promise resolves with exactly the extracted token. |
| `CallbackServer.TokenCallbackResolves` | src/core/localCallbackServer.js:113-114 | A callback to `/callback?token=<t>` (t non-empty, without '&', '#', '+', '%') resolves with exactly `t`. |
| `CallbackServer.TokenAfterOtherParameter` | src/core/localCallbackServer.js:6-7 | In `/callback?state=<x>&token=<t>` the token is still found as `t`. |
| `CallbackServer.EmptyTokenFails` | src/core/localCallbackServer.js:9-12 | `?token=` with no value counts as no token. |
| `Login.EncodeUnreserved` | src/commands/login.js:11 | `encodeURIComponent` leaves text made only of unreserved characters unchanged. |
| `Login.EncodeAppend` | src/commands/login.js:11 | `encodeURIComponent` works character by character: encoding a concatenation concatenates the encodings. |
| `Login.EncodedIsQuerySafe` | src/commands/login.js:11 | `encodeURIComponent` output holds only unreserved characters and '%' (with hex digits, which are unreserved). |
| `Login.EncodeDecodeRoundTrip` | src/commands/login.js:11 | Decoding undoes `encodeURIComponent` on ASCII text. |
| `Login.CallbackUrlEncoding` | src/commands/login.js:10-11 | `encodeURIComponent("http://localhost:9900/callback")` is "http%3A%2F%2Flocalhost%3A9900%2Fcallback". |
| `Login.LoginUrlEncodesCallback` | src/commands/login.js:11 | `LoginUrl`, the login URL, is `API_BASE + "/api/auth/github?callback=" + encodeURIComponent(callbackURL)`. |
| `Login.LoginUrlCarriesCallback` | src/commands/login.js:10-11 | The `callback` parameter read back from the login URL is the encoded address, and it decodes to exactly the callback address. |
| `Login.ApiBaseDefault` | src/commands/login.js:5 | `API_BASE` is "https://commitai-backend.onrender.com" when the variable is unset or empty, and the variable's value otherwise. |
| `Login.CredentialStore.constructor` | src/commands/login.js:2 | A store starts with the token it was given. |
| `Login.CredentialStore.Write` | src/commands/login.js:17 | `writeConfig({token})` leaves exactly that token stored. |
| `Login.LoginCommand` | src/commands/login.js:7-20 | The browser is opened first, on the login URL, before the listener starts on 9900. If opening fails, the command rejects with nothing else done. The events are exactly: open the browser, start listening, then write the config only on a login. With no callback it waits forever. A callback whose target `new URL` rejects ends the process and writes nothing. A callback without a token rejects with "No token" and leaves the store unchanged. A callback with a token logs in, and the config is written only then and only with that token. |
| `Git.TrimStart` | src/utils/git.js:6 | The result is a suffix of the input, with only trimmable characters removed. It is empty or starts with a non-trimmable character. |
| `Git.TrimEnd` | src/utils/git.js:6 | The result is a prefix of the input, with only trimmable characters removed. It is empty or ends with a non-trimmable character. |
| `Git.Trim` | src/utils/git.js:6 | `s.trim()` is empty or neither starts nor ends with a trimmable character. |
| `Git.TrimIdempotent` | src/utils/git.js:6 | Trimming a trimmed string changes nothing. |
| `Git.TrimEmptyIffBlank` | src/utils/git.js:6 | `s.trim()` is empty exactly when every character is ECMAScript whitespace or a line terminator. |
| `Git.GetStagedDiff` | src/utils/git.js:3-12 | Runs exactly `git diff --cached`. Returns the diff, untrimmed, exactly when the command succeeded and its output is not blank. Otherwise it exits with status 1. |
| `Git.CommitCommand` | src/utils/git.js:16 | The command is 16 characters longer than the message. It holds the message unchanged between a '"' at index 14 and a final '"'. |
| `Git.CommitCommandRoundTrip` | src/utils/git.js:16 | The commit command is `git commit -m "` + message + `"`, and the message is recovered from it unchanged. |
| `Git.CommitCommandQuotes` | src/utils/git.js:16 | No escaping: the command has exactly two more double quotes than the message. |
| `Git.MakeCommit` | src/utils/git.js:14-20 | `makeCommit` always returns normally after running the command for the message. It logs an error exactly when that command failed. |

## Left out

- The HTTP exchange of `src/core/ai.js` (`fetch`, `res.json()`) is an input: the service was unreachable, the body did not parse, or a status with a parsed JSON value. The request body is kept as the pair `{diff, filesList}`, not as its `JSON.stringify` text.
- `readConfig` and `getChangedFiles` come from `src/core/config.js` and `src/core/git.js`. Those files are not part of this model. Their outcomes are inputs: the config's token, or the error `readConfig` threw (a `null` or `undefined` config counts as a throw, because destructuring it fails); and the file list, or the error `getChangedFiles` threw.
- `CoreAi.Generate`: a stored token is a string or absent. A token of another JSON type (a number, `true`, an object) is not represented. Its truthiness and its text in the `Authorization` header are therefore not modelled.
- `console` output (including the service's `error` text) and `chalk` colouring are not modelled.
- `http.createServer`, sockets, `server.listen` errors such as a port already in use, and the HTML and CSS of the confirmation page are not modelled. The listener is a `listening` flag plus a log of what the handler did. The page is a single constructor.
- `CallbackServer.CallbackListener.HandleRequest`: whether `new URL(req.url, "http://localhost:9900")` accepts a target (it rejects, for example, `//a:99999` and `//[`) is an input, not computed from the URL parser's host and port rules. For a rejected target the model keeps what the source does: the handler throws before any response, the listener stays open and the promise pending, and the uncaught TypeError ends the process (`Login.ProcessEnded`). Node's own reply to the dropped connection is not modelled.
- `CallbackServer.QueryParam`: does not percent-decode names and values. It also does not apply the URL parser's other clean-ups (such as removing tabs and newlines). The parsing of '?', '#', '&', '=' and '+' is modelled.
- `Login.DecodeUriComponent` decodes only escapes of ASCII characters. It exists to check the encoder, so `Login.EncodeDecodeRoundTrip` is stated for ASCII text. `encodeURIComponent` itself is modelled for every character, with UTF-8 escapes.
- `open(loginURL)` is an input: the browser opened or it failed. No timeout exists in the source, so a callback that never arrives leaves `Login.LoginCommand` waiting.
- `writeConfig` is in `src/core/config.js`, which is not part of this model. It is assumed to store `{token}` so that a later `readConfig()` gives back that token. Only the token is modelled.
- `execSync` is a function from a command string to its outcome, and `process.exit(1)` is the outcome `Exit(1)`. The shell's own parsing of the commit command is not modelled.
- `src/commands/commit.js` is left out: the interactive menu, `chalk` output, and committing unless `--dry-run`. So are `src/utils/config.js` (file read and write with an unguarded `JSON.parse`), `src/index.js` and `bin/commitai.js` (command dispatch).
- JSON numbers are reals. `JSON.parse` gives `Infinity` or `-Infinity` for an out-of-range literal such as `1e999`, and these are not represented. They are truthy, like any non-zero real, so the truthiness of `success` is not affected.

## Findings

| source | as written | input that shows it | evidently intended | confidence | as-written member | corrected member |
|---|---|---|---|---|---|---|
| src/core/ai.js:41-44 | the 429 branch calls `chalk.red`, but `chalk` is never imported in this file; the ReferenceError is caught at lines 50-53 and the generic fallback candidate is returned | status 429 with body `{"success": true, "error": "rate limit exceeded"}` | print the error in red and return `null` | not executed; high (the identifier is unbound in the module) | `CoreAi.RateLimitYieldsFallback` (about `CoreAi.Settle`) | `CoreAi.SettleIntended` |

`CoreAi.Generate` keeps the as-written behaviour, because that is what the program does.
