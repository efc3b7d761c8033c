# A verified model of the phoenix agent

The phoenix agent sits between a Rails application and a command-line coding
assistant (Gemini, Claude Code or OpenAI Codex). It has three parts:

- It logs the assistant's CLI in.
- It runs prompts through the CLI.
- It reports back over two channels:
  - an ActionCable connection to Rails (the legacy consumer in `websocket.mjs` and
    the newer `AgentConnection`);
  - a small chat server whose browser page talks to the agent over a WebSocket.

The model is written in Dafny. Each part is a pure state machine, or a function
over parsed values: one step per event, returning the new state and the effects
(messages sent, processes spawned or killed, files written). The files are:

| file | models |
|---|---|
| `wrappers.dfy` | `Option` (null/undefined), `Stored` (a JSON file as read), `Settlement` (how a promise ended) |
| `text.dfy` | `trim`, blank tests, `split`/`join`, decimal rendering and `parseInt` |
| `uri.dfy` | `encodeURIComponent` / `decodeURIComponent` with UTF-8 |
| `ansi.dfy` | the Claude strategy's removal of terminal escape sequences |
| `scrape.dfy` | the URL and port regular expressions, as leftmost-longest matches |
| `json.dfy` | parsed JSON values, truthiness, field reads, `String(v)` |
| `callback.dfy` | the Claude strategy's callback URL for a pasted login code |
| `auth.dfy` | the interactive login sessions of every strategy and the legacy module |
| `probe.dfy` | `checkAuthStatus` of every strategy and the legacy module |
| `prompt.dfy` | prompt command lines and how a prompt's promise settles |
| `credentials.dfy` | `clearCredentials` over a file system given as a set of paths |
| `registry.dfy` | the provider table, `resolveStrategy` and which class defines which operation |
| `mock.dfy` | the mock strategy |
| `stores.dfy` | `ModelStore` and `MessageStore` |
| `server.dfy` | the chat server: password gate, login route, model options, WebSocket cookie test |
| `hub.dfy` | the chat server's WebSocket endpoint, one live browser at a time |
| `cookies.dfy` | the two cookie tests side by side, on a header that tells them apart |
| `consumer.dfy` | the legacy ActionCable consumer |
| `bridge.dfy` | `AgentConnection` |
| `chat.dfy` | the browser page's state machine |

Some modelling choices apply throughout:

- An exit code is `Option<int>`. `None` is Node's `null`, which a process killed
  by a signal reports.
- Parsed JSON numbers are integers.
- A file that cannot be read or parsed is `Malformed`.
- Clock values, random ids, the system prompt file and CLI answers are
  parameters of the events that carry them.

## Model

| member | source | states |
|---|---|---|
| Text.Trim | src/model_store.mjs:23 | The result has no whitespace at either end and is no longer than the input. It is empty exactly when the input is blank. |
| Text.TrimOfPadded | src/server.mjs:83 | A trimmed core with whitespace on both sides trims to exactly that core. This is the reference characterisation the trims rely on. |
| Text.TrimIdempotent | src/model_store.mjs:23 | Trimming an already trimmed value changes nothing. |
| Text.Split | src/server.mjs:83 | The pieces of a split hold no separator, and joining them with the separator gives back the input. |
| Text.SplitJoin | src/server.mjs:83 | Splitting a join of separator-free pieces gives back exactly those pieces. |
| Text.NatToString | src/strategies/claude_code.mjs:101 | A port renders as a non-empty run of digits, with no leading zero. |
| Text.IntToString | src/strategies/gemini.mjs:182 | An exit code renders with a leading minus exactly when it is negative. |
| Text.ParseNatToString | src/strategies/claude_code.mjs:47 | `parseInt` of a rendered port gives the port back. |
| Uri.Encode | src/strategies/claude_code.mjs:104 | The encoding is at least as long as the input. |
| Uri.EncodeKeepsDelimitersOut | src/strategies/claude_code.mjs:104 | An encoded code never holds `&`, `#` or `=`, so it cannot split the callback query. |
| Uri.EncodeUnreserved | src/strategies/claude_code.mjs:104 | Unreserved characters pass through unchanged. |
| Uri.DecodeEscapeOfChar | src/server.mjs:105 | A character escaped as one to four UTF-8 octets decodes back to that character and consumes exactly its escapes. |
| Uri.DecodeEncode | src/server.mjs:105 | `decodeURIComponent(encodeURIComponent(s))` is `s` for every string. |
| Uri.DecodePlain | src/server.mjs:105 | Text without `%` decodes to itself. |
| Ansi.ParamRun | src/strategies/claude_code.mjs:7 | The greedy `[0-9;]*` takes every parameter character at the front and stops at the first other one. |
| Ansi.BelIndex | src/strategies/claude_code.mjs:7 | `[^\x07]*\x07` ends at the first BEL, and there is none before it. |
| Ansi.Strip | src/strategies/claude_code.mjs:34 | Stripping never lengthens the output and never introduces a character that was not there. |
| Ansi.StripPlain | src/strategies/claude_code.mjs:34 | Output without an escape character is left as it is. |
| Ansi.StripPlainPrefix | src/strategies/claude_code.mjs:34 | Escape-free text stays in front of whatever the rest strips to. |
| Ansi.StripCsi | src/strategies/claude_code.mjs:7 | A complete control sequence (ESC `[`, parameters, one letter) is removed. |
| Ansi.StripOsc | src/strategies/claude_code.mjs:7 | An operating-system command (ESC `]` up to the first BEL) is removed. |
| Ansi.StripAround | src/strategies/claude_code.mjs:34 | Escape-free text between two control sequences comes out bare. |
| Ansi.StripNotIdempotent | src/strategies/claude_code.mjs:34 | The replace is a single pass. Removing one sequence can join a new one, so stripping twice can remove more. |
| Scrape.Run | src/strategies/claude_code.mjs:8 | The greedy `+` repetition covers exactly the class characters up to the first character outside the class. |
| Scrape.Leftmost | src/strategies/gemini.mjs:34 | A match is found at the leftmost index where the pattern matches, and nowhere earlier. |
| Scrape.MatchText | src/strategies/openai_codex.mjs:31 | The matched text starts with the lead, is followed in the output by a character outside the class (or the end), and occurs at the match index. |
| Scrape.Find | src/strategies/claude_code.mjs:39 | `match` finds nothing exactly when the pattern matches nowhere. A match is the lead followed by one or more class characters. |
| Scrape.FindAtFront | src/strategies/claude_code.mjs:39 | Output that begins with a complete URL yields exactly that URL. |
| Scrape.FindAfter | src/server.mjs:104 | A match after a prefix that cannot start the lead is the one returned. |
| Scrape.FindAt | src/strategies/gemini.mjs:34 | A match with none before it is the match `match` returns. |
| Scrape.TestPersists | src/strategies/gemini.mjs:124 | A pattern that matches accumulated output still matches once more output is appended. |
| Scrape.CallbackPortOf | src/strategies/claude_code.mjs:45-48 | A `redirect_uri` carrying a port gives that port back. |
| Json.Field | src/websocket.mjs:99-101 | Reading a field gives the object's own field, and `undefined` for a missing key or a non-object. |
| Callback.EffectivePort | src/strategies/claude_code.mjs:98 | The port is the scraped port when it is set and non-zero, and 8765 otherwise. It is never 0. |
| Callback.BuildCallbackUrl | src/strategies/claude_code.mjs:93-105 | A full local URL is forwarded as it is. Anything else goes to the callback endpoint of the effective port. |
| Callback.CallbackCarriesInput | src/strategies/claude_code.mjs:100-104 | A query string passes through untouched. A bare code arrives as `code`, decodes to the input and carries no delimiter of its own. |
| Callback.CallbackPortChoice | src/strategies/claude_code.mjs:98-104 | The request goes to the scraped port when there is one, and to `localhost:8765` when there is none. |
| Callback.DefaultPortText | src/strategies/claude_code.mjs:10 | The default port renders as `8765`. |
| Callback.PortRule | src/strategies/claude_code.mjs:83 | The URL parser inside `http.get` accepts an `http://host:port` URL followed by a path, query or fragment exactly when the port is decimal digits (or empty) naming at most 65535. |
| Callback.LocalPortRule | src/strategies/claude_code.mjs:83 | The same rule for the `http://localhost` URLs that `submitAuthCode` requests. |
| Callback.RenderedPort | src/strategies/claude_code.mjs:98-104 | A port rendered into the URL has no delimiter, and the parser takes it exactly when it is at most 65535. |
| Callback.BuiltUrlAccepted | src/strategies/claude_code.mjs:93-104 | A URL built around the endpoint is refused exactly when the port is above 65535. The `?code=` and query forms never make it invalid. |
| Auth.ExitEndsSession | src/strategies/gemini.mjs:48-60 | The login process closing ends the session. The connection hears success on exit 0, on Gemini's 42, or always for the legacy module; otherwise it hears `unauthenticated`. |
| Auth.CancelIdempotent | src/strategies/claude_code.mjs:107-114 | Cancel kills the active login process and forgets the session. A second cancel, or one with no login running, does nothing. |
| Auth.SubmitReachesStartedProcess | src/strategies/openai_codex.mjs:73-80 | A string code goes to the stdin of the process just started, trimmed and ended with a newline. A falsy value writes an empty line, and a truthy value that is not a string throws. The session is unchanged. |
| Auth.TrimmedCode | src/strategies/gemini.mjs:79 | `(code \|\| '').trim()`: a string's trimmed text, the empty text for a falsy value, and a throw exactly for a truthy value that is not a string. |
| Auth.SubmitWrites | src/strategies/gemini.mjs:76-80 | With a login process running, a code that does not throw is written to that process as one line, and the session is unchanged. |
| Auth.SubmitThrows | src/strategies/gemini.mjs:76-83 | Submitting a code never changes the session and does at most one thing. It throws exactly when the Gemini, Codex or legacy CLI is running and the value is truthy but not a string (its `trim` is missing). On Claude it throws when the value is not a string (`input.startsWith` in claude_code.mjs:93-96), or when the URL parser refuses the callback URL (`http.get` in claude_code.mjs:83). |
| Auth.WrittenCode | src/strategies/gemini.mjs:76-80 | With a login running, a value that trims is written to that process as its trimmed text and a newline, in one write. |
| Auth.SubmitAfterExit | src/gemini.mjs:56-63 | After the login process has exited, a submitted code is written nowhere. |
| Auth.SubmitAfterCancel | src/strategies/gemini.mjs:76-83 | After a cancel, a submitted code is written nowhere. |
| Auth.ReportedUrlIsFirstMatch | src/strategies/claude_code.mjs:33-54 | A reported login URL is the first match of the backend's pattern in the (stripped) chunk, and is made of characters of the chunk. |
| Scrape.FindInText | src/strategies/gemini.mjs:34-35 | Every character of a match occurs in the text it was found in. |
| Auth.UrlThroughEscapes | src/strategies/claude_code.mjs:34-39 | A Claude login URL wrapped in display escape sequences is found without them. |
| Auth.OutputReports | src/strategies/claude_code.mjs:41-48 | The first URL marks the process as having reported. On Claude it also records the redirect port. |
| Auth.ClaudeSubmit | src/strategies/claude_code.mjs:78-91 | A pasted Claude code becomes one `http.get` of the callback URL for the recorded port, with no state change. When the URL parser refuses that URL, `http.get` throws instead. |
| Auth.ForwardedUrlPort | src/strategies/claude_code.mjs:83-96 | A pasted `http://localhost:` URL is requested as it is. It throws exactly when its port is not one the parser takes, as with `http://localhost:abc/callback`. |
| Auth.CodeGoesToAnnouncedPort | src/strategies/claude_code.mjs:41-104 | After the CLI announces its URL, the connection hears it. A pasted code then goes to the port named in that URL when that port is at most 65535. A larger port, such as 70000, makes `http.get` throw. |
| Auth.StepReportsOnce | src/strategies/openai_codex.mjs:25-39 | One event reports at most as many URLs for a process as it still had to report, and never unsets the flag. |
| Auth.RunReportsOnce | src/strategies/openai_codex.mjs:25-39 | The same holds over any run of events. |
| Auth.AtMostOneUrlPerSession | src/strategies/gemini.mjs:25-42 | Whatever happens, each spawned login process sends at most one login URL, and none once it has sent one. |
| Auth.StepKeepsOwners | src/strategies/gemini.mjs:15-74 | With the stale-listener guard, a step keeps the session consistent. Every notice goes to the connection its process was started for. |
| Auth.RunKeepsOwners | src/strategies/claude_code.mjs:23-114 | With the guard, over any run, every notice reaches the connection that started the process it comes from. |
| Auth.InitConsistent | src/strategies/claude_code.mjs:15-21 | The freshly constructed strategy is consistent. |
| Auth.StaleCloseHitsNewSession | src/strategies/openai_codex.mjs:45-57 | As written, cancel then re-login lets the killed process's close tell the new connection `unauthenticated` and drop the new session. With the guard, nothing is sent and the new session stays cancellable. |
| Probe.ProbeStep | src/strategies/claude_code.mjs:134-162 | Once settled the probe ignores events. The probe process is killed exactly when unsettled data shows a login prompt, and the probe then settles on `false`. |
| Probe.SettledStays | src/strategies/gemini.mjs:118-147 | The first settlement wins: nothing afterwards changes it. |
| Probe.DataRun | src/strategies/gemini.mjs:118-128 | Over a series of chunks the probe stays unsettled exactly when no chunk shows a login prompt, having heard all of them. Otherwise it settles on `false`. |
| Probe.LoudChunk | src/strategies/claude_code.mjs:139-143 | A chunk that shows a login prompt settles the probe on `false` for good. |
| Probe.LoudNotQuiet | src/gemini.mjs:81 | A series whose first chunk shows a login prompt is not quiet. |
| Probe.QuietTail | src/gemini.mjs:75-86 | After a quiet chunk, the rest is quiet exactly when the whole series is. |
| Probe.ProbeThenClose | src/strategies/gemini.mjs:134-139 | Output then close reports `false` if the output showed a login prompt, and otherwise the close verdict: the exit code for Claude, `true` for Gemini. |
| Probe.ProbeThenError | src/strategies/claude_code.mjs:156-162 | A spawn error, after any output, reports `false`. |
| Probe.CodexSignedIn | src/strategies/openai_codex.mjs:90-106 | Codex is logged in exactly when its auth file parses to an object with a truthy `access_token`, `token` or `api_key`. |
| Prompt.DirNames | src/strategies/claude_code.mjs:218-220 | The listed names are exactly the directories among the entries. A single entry gives its name exactly when it is a directory. |
| Prompt.DirNamesConcat | src/strategies/claude_code.mjs:218-220 | The filter keeps listing order: the directories of two listings joined are the first's followed by the second's. With the one-entry case this fixes the result as the in-order filter. |
| Prompt.PlaygroundDirs | src/strategies/claude_code.mjs:215-224 | Each directory is joined under the playground. A missing or unreadable playground gives none. |
| Prompt.AddDirs | src/strategies/claude_code.mjs:177-179 | Each directory is preceded by `--add-dir`, in order. |
| Prompt.ParseAddDirsOf | src/strategies/claude_code.mjs:177-179 | The `--add-dir` pairs read back as the directories. |
| Prompt.ClaudeArgsRoundTrip | src/strategies/claude_code.mjs:172-179 | The Claude command line carries the session flag, the prompt (whatever it says) and the directories, and they read back from it. |
| Prompt.ClaudeCommandRoundTrip | src/strategies/claude_code.mjs:174 | After the optional `--continue`, the command starts with `-p` and reads back as the prompt and directories. |
| Prompt.CodexArgsPromptLast | src/strategies/openai_codex.mjs:115-117 | The Codex prompt is always the last argument. `resume` appears exactly when a session exists. |
| Prompt.StreamClose | src/strategies/claude_code.mjs:197-207 | A streamed prompt rejects exactly when the exit code fails and stderr is not blank, and then with the stderr text. |
| Prompt.StreamOutput | src/strategies/openai_codex.mjs:127-133 | While only output arrives, every stdout chunk is forwarded in order, stderr is collected, and nothing settles. |
| Prompt.StreamThenClose | src/strategies/claude_code.mjs:187-207 | A streamed prompt settles by the close rule on all its stderr. The chunks reach the caller in order, and a session starts exactly when the call resolves. |
| Prompt.StreamRunAppend | src/strategies/claude_code.mjs:189-207 | Running two batches of events is running them one after the other. |
| Prompt.ErrorThenClose | src/strategies/openai_codex.mjs:135-149 | A spawn error rejects. A close afterwards still starts a session, because the close listener runs anyway. |
| Prompt.CollectClose | src/strategies/gemini.mjs:175-186 | Gemini resolves with any non-blank reply whatever the exit code. A blank reply rejects exactly on a failing exit, with stderr, or `Process exited with code <code>` when stderr is empty. The legacy module resolves with stdout exactly on exit 0, and otherwise rejects with stderr or `Process exited with non-zero code`. |
| Prompt.CollectOutput | src/strategies/gemini.mjs:164-173 | Output events only accumulate stdout and stderr. |
| Prompt.CollectRunAppend | src/strategies/gemini.mjs:164-186 | Running two batches of events is running them one after the other. |
| Prompt.CollectThenClose | src/gemini.mjs:121-138 | A collected prompt settles by the close rule applied to everything written on each stream. |
| Credentials.Home | src/strategies/gemini.mjs:6 | An unset or empty `HOME` falls back to `/home/node`. |
| Credentials.Unlink | src/strategies/openai_codex.mjs:83-86 | Unlinking removes exactly the one path. |
| Credentials.RemoveTree | src/strategies/claude_code.mjs:117-120 | A recursive removal of an existing directory removes it and everything under it. A missing directory removes nothing. |
| Credentials.GeminiDirsApart | src/strategies/gemini.mjs:96-103 | Neither Gemini credential directory lies inside the other. |
| Credentials.ClearRemovesExactly | src/strategies/gemini.mjs:85-106 | Clearing removes exactly the strategy's credential paths that were there, and leaves every other path. |
| Credentials.ClearIdempotent | src/strategies/claude_code.mjs:116-122 | Clearing twice is clearing once. |
| Credentials.ClearSignsCodexOut | src/strategies/openai_codex.mjs:82-106 | After clearing, the Codex probe reports logged out, whatever the file held. |
| Registry.ProviderName | src/strategies/index.mjs:18 | An unset or empty `AGENT_PROVIDER` means `gemini`. |
| Registry.Lookup | src/strategies/index.mjs:7-13 | `PROVIDERS[name]` finds a strategy class exactly for the five own keys, and the class bears that name. `constructor` finds the inherited `Object`. The other `Object.prototype` names find a value that is not a constructor. Any other name finds nothing. |
| Registry.Resolve | src/strategies/index.mjs:17-27 | Resolution constructs a strategy exactly for a known name, with that provider. `constructor` yields an empty object. Another inherited name throws the `not a constructor` TypeError. Any other name throws the message listing the providers. |
| Registry.ResolveByName | src/strategies/index.mjs:7-13 | Every provider's own name selects it, and no two providers share a name. |
| Registry.DefaultIsGemini | src/strategies/index.mjs:15-18 | No provider setting selects Gemini. |
| Registry.OnePromptEntry | src/strategies/claude_code.mjs:166 | Each known strategy runs prompts through exactly one of `executePrompt` and `executePromptStreaming`. The other one throws. |
| Registry.AuthOpsImplemented | src/strategies/mock.mjs:1-37 | Every strategy defines its own login, code, cancel, clear and probe operations. |
| Mock.MockAuth | src/strategies/mock.mjs:4-9 | The mock login sends one success, to the connection it was given. |
| Mock.MockSubmit | src/strategies/mock.mjs:11-13 | Submitting a code sends nothing. |
| Mock.MockCancel | src/strategies/mock.mjs:15-17 | Cancelling sends nothing. |
| Mock.MockClearKeepsFiles | src/strategies/mock.mjs:19-21 | The mock deletes no file. |
| Mock.MockProbe | src/strategies/mock.mjs:23-26 | The mock probe reports logged in. |
| Mock.MockReply | src/strategies/mock.mjs:28-36 | The mock prompt never rejects, and its reply starts with the fixed text. |
| Mock.MockReplyCarriesTimestamp | src/strategies/mock.mjs:28-36 | The reply ignores the prompt and carries the timestamp unchanged. |
| Stores.GetModel | src/model_store.mjs:12-20 | The stored model is the file's `model` field when that is truthy. It is the empty string for a missing, unparsable or null file or a falsy field. |
| Stores.SetValue | src/model_store.mjs:22-26 | `set` stores the trimmed string. A falsy argument stores the empty string. A truthy non-string throws. |
| Stores.SetThenGet | src/model_store.mjs:12-26 | Reading back after `set` gives what `set` returned. |
| Stores.ReadBack | src/model_store.mjs:12-24 | A written `{ model }` file reads back as that model. |
| Stores.SetStoredAgain | src/model_store.mjs:22-26 | Setting the model already stored changes nothing. |
| Stores.MessageRecord | src/message_store.mjs:18-28 | A record carries the given id, role, body and creation time. |
| Stores.Load | src/message_store.mjs:41-48 | Loading gives what the file parses to, or an empty list when it is missing or unparsable. |
| Stores.Open | src/message_store.mjs:8-12 | The constructor loads the file and writes nothing. |
| Stores.Add | src/message_store.mjs:18-28 | `add` appends exactly the new record and saves the whole list. When the loaded value is not an array it throws, and nothing is written. |
| Stores.Clear | src/message_store.mjs:30-33 | `clear` empties the list and saves it. |
| Stores.AddSurvivesRestart | src/message_store.mjs:18-52 | After `add`, a restart reloads the history in memory: the old messages, then the new one. |
| Stores.ClearSurvivesRestart | src/message_store.mjs:30-52 | After `clear`, a restart reloads an empty list, and adding works again. |
| Stores.Records | src/message_store.mjs:18-28 | A batch of drafts gives one record each. |
| Stores.AddAllCons | src/message_store.mjs:18-28 | Adding a batch is adding its first message, then the rest. |
| Stores.AddAllAppends | src/message_store.mjs:18-33 | Adding a batch keeps what was there and appends the records in order. The saved file matches memory. |
| Server.IndexOf | src/server.mjs:20-31 | The index of the first `=` of a cookie piece, as the cookie parser splits a pair: it holds the character, and none lies before it. |
| Server.PairOf | src/server.mjs:23-30 | A cookie piece is a pair exactly when it holds `=`. |
| Server.Pairs | src/server.mjs:23-30 | Every piece of the header is parsed, in order. |
| Server.FirstNamedFinds | src/server.mjs:29 | The cookie found has the name, and no earlier pair has it. Nothing is found exactly when no pair has the name. |
| Server.RequireAuth | src/server.mjs:23-47 | Without a password, or with the right cookie, every request passes. Otherwise the page gets the login form, assets pass, and every other route is refused. |
| Server.Login | src/server.mjs:49-71 | Login needs no password when none is set. It succeeds exactly on the right password, and then sets an http-only `agent_auth` cookie with that password, thirty days, and `secure`/`sameSite` following the connection. |
| Server.EncodedPlain | src/server.mjs:61 | The cookie value as sent back holds no `;` and no whitespace. |
| Server.LoginCookieReadsBack | src/server.mjs:29 | The cookie of a successful login, sent back, reads as the password. |
| Server.PairOfCookie | src/server.mjs:29 | The pair `agent_auth=<encoded value>` reads as the value. |
| Server.LoginOpensGate | src/server.mjs:23-71 | Logging in and sending the cookie back opens every route. A wrong password leaves the API answering 401. |
| Server.TrimAll | src/server.mjs:83 | Each option is trimmed, in order. |
| Server.NonEmpty | src/server.mjs:83 | The items kept are exactly the non-empty ones. A single item is kept exactly when it is non-empty. |
| Server.NonEmptyConcat | src/server.mjs:83 | Filtering a concatenation is filtering each part, in order. With the single-item case, this makes the filter keep every non-empty item in its place. |
| Server.ModelOptions | src/server.mjs:81-85 | Every option offered is non-empty, trimmed and comma-free. |
| Server.TrimAllKeepsOut | src/server.mjs:83 | Trimming adds no character. |
| Server.ModelOptionsRoundTrip | src/server.mjs:81-85 | A comma-joined list of clean options comes back unchanged. |
| Server.NoOptions | src/server.mjs:82 | An unset or empty `MODEL_OPTIONS` offers nothing. |
| Server.CleanOptionsKept | src/server.mjs:83 | Clean options survive the trim and the filter. |
| Server.CookieCheckAsWritten | src/server.mjs:100-111 | Without a password every connection passes the cookie test as written. |
| Server.CookieCheck | src/server.mjs:100-111 | The corrected test admits exactly the connections the HTTP gate lets through, and never throws. |
| Server.LoginCookieAdmitted | src/server.mjs:61-110 | The cookie of a successful login, sent back alone, passes the test as written. |
| Server.ThrowNeedsEscape | src/server.mjs:102-105 | The test as written throws only when a password is set and the header holds `%`. |
| CookieFinding.ShadowedCookieRefused | src/server.mjs:102-110 | A browser holding `<x>agent_auth=<other>` before the real `agent_auth` cookie is refused by the test as written, though the HTTP gate lets it through and the corrected test admits it. |
| CookieFinding.MalformedCookieThrows | src/server.mjs:103-105 | With a password set, a cookie `agent_auth=%` makes the handler's `decodeURIComponent` throw, so the hub neither seats nor closes the socket. The HTTP gate answers 401, and the corrected test refuses. |
| CookieFinding.SinglePair | src/server.mjs:20-31 | A header that is the single `agent_auth` pair reads as its value, decoded when it decodes and kept as it is otherwise. |
| CookieFinding.OnlyPair | src/server.mjs:20-31 | The same for a single pair of any trimmed name. |
| Hub.Frame | src/server.mjs:89-93 | A frame is the message type plus the data's fields. A `type` in the data wins. |
| Hub.Arrival | src/server.mjs:99-111 | A connecting browser is judged as the handler is written. Without a password every browser passes. The test throws only on a header holding `%`. |
| Hub.CorrectedArrival | src/server.mjs:99-111 | Under the corrected test, a browser passes exactly when the HTTP gate would pass its cookie, and the test never throws. |
| Hub.StepKeepsValid | src/server.mjs:99-140 | Every event keeps the hub valid, so at most one browser is ever live. |
| Hub.RunKeepsValid | src/server.mjs:87-140 | The same holds over any run of events. |
| Hub.ConnectOutcome | src/server.mjs:99-121 | A connection is admitted exactly when it passes the cookie test and no client is live. A refused one is closed with 4001 or 4000, whichever says why. When the test throws, the socket is neither admitted nor closed. |
| Hub.ReturningBrowserAdmitted | src/server.mjs:49-121 | A browser that logged in and sends its cookie back is admitted under the test as written when no other browser is live. |
| Hub.CloseFreesSeat | src/server.mjs:135-140 | Once the live client closes, the next browser with the cookie gets in. |
| Hub.StaleCloseKeepsActive | src/server.mjs:135-140 | A socket that closes after another took its place does not unseat it. |
| Hub.OutboundReachesClient | src/server.mjs:89-97 | Outbound messages reach exactly the live client. |
| Hub.InboundFromLive | src/server.mjs:123-133 | Only a live client's parsed messages reach the orchestrator. |
| Consumer.Payload | src/websocket.mjs:38-55 | Every report carries its action name. |
| Consumer.PayloadRoundTrip | src/websocket.mjs:80-168 | Every report Rails receives reads back as itself. |
| Consumer.MarksLoggedInOnlySuccess | src/websocket.mjs:48-55 | The channel wrapper records a login for `auth_success`/`completed` and nothing else. |
| Consumer.RelayAll | src/gemini.mjs:31-45 | Every effect of the login module is relayed, in order. |
| Consumer.LoginStep | src/websocket.mjs:108-121 | The login module runs as written, with every listener reading its globals. A login event never starts a prompt or changes the busy flag. It records a login exactly when it reports one, and sends only URLs and successes. Only a submitted code can make the handler reject. |
| Consumer.AuthCodeRouted | src/websocket.mjs:118-120 | A payload holding only a truthy `auth_code` reaches the code branch, and the value goes to the login module unchanged. |
| Consumer.AuthCodeOutcome | src/gemini.mjs:56-63 | The code branch, for any truthy value, leaves the consumer unchanged. With a CLI running, a string is written to it trimmed with a newline, and any other value makes the handler reject. With none running, nothing happens. |
| Consumer.CodeWithoutLogin | src/gemini.mjs:56-63 | With no login process, a code is written nowhere and the consumer is unchanged. |
| Consumer.CodeWritten | src/gemini.mjs:56-59 | With a login process, a code with text is written to its stdin as `(code \|\| '').trim() + '\n'`, and the consumer is unchanged. |
| Consumer.CodeRejected | src/gemini.mjs:56-59 | With a login process, a truthy code that is not a string throws in `trim`. The handler rejects and the consumer is unchanged. |
| Consumer.ReplacedLoginReports | src/gemini.mjs:8-49 | After two `start_auth` messages, the first CLI closing relays `auth_success` and forgets the second process, so a code sent afterwards is written nowhere. |
| Consumer.OnePromptAtATime | src/websocket.mjs:122-145 | A prompt runs only from an idle, logged-in consumer, and running it marks the consumer busy. Only the settlement leaves the busy state, reporting the outcome. |
| Consumer.LegacyPromptReported | src/gemini.mjs:108-144 | The prompt in flight ends as the legacy prompt settles. Rails hears the CLI's output exactly on exit 0. Otherwise it hears stderr, or `Process exited with non-zero code` when stderr is empty. The consumer is idle again. |
| Consumer.InstructionPrompt | src/websocket.mjs:99-145 | A message starts a prompt exactly when it moves the consumer from idle to busy. |
| Consumer.LoginStepsOnly | src/websocket.mjs:101-121 | An instruction other than a prompt leaves the busy flag alone and runs nothing. |
| Consumer.PromptAdmission | src/websocket.mjs:122-141 | A prompt has one outcome. It is `NEED_AUTH` without a login, `BLOCKED` while another prompt runs, the read error of the system prompt, or a run of the system prompt, a blank line and the prompt. |
| Consumer.SuccessRecorded | src/websocket.mjs:48-55 | After any step that reports `auth_success`, the consumer counts as logged in. |
| Consumer.StatusesTruthful | src/websocket.mjs:99-107 | Outside the subscription confirmation, every status report describes the consumer's state at the time. |
| Consumer.InstructionTruthful | src/websocket.mjs:101-145 | Every status an instruction reports describes the consumer's state. |
| Consumer.HeartbeatWindow | src/websocket.mjs:89-94 | The heartbeat reports both statuses between a confirmed subscription and the socket's close, and never after the close. |
| Consumer.LegacyNeverUnauthenticated | src/gemini.mjs:40-49 | The legacy login never reports a failed login, as written or with the stale-listener guard. |
| Bridge.Payload | src/agent_connection.mjs:88-125 | Each bridge method sends its action name with its argument fields, and no field is lost. |
| Bridge.PayloadRoundTrip | src/agent_connection.mjs:103-125 | Every bridge method's payload reads back as the same call. |
| Bridge.AnnounceRoundTrip | src/strategies/gemini.mjs:39-56 | Rails can tell every login notice from the payload the strategy sends. |
| Bridge.SecretOf | src/agent_connection.mjs:17 | The secret is `AGENT_SECRET` when it is set and not empty. |
| Bridge.Identifier | src/agent_connection.mjs:81-86 | The identifier names `AgentChannel`, and carries the secret exactly when there is one. |
| Bridge.Init | src/agent_connection.mjs:14-20 | A new connection is not subscribed. |
| Bridge.InstructionRoundTrip | src/agent_connection.mjs:127-145 | Each instruction Rails writes reaches the orchestrator as the event it names, with its code or text. |
| Bridge.UnknownIgnored | src/agent_connection.mjs:127-145 | An instruction is dispatched exactly when it names a known action. |
| Bridge.SendGated | src/agent_connection.mjs:88-101 | A send reaches Rails exactly when subscribed, as one channel message carrying the identifier and the payload. |
| Bridge.SubscriptionChanges | src/agent_connection.mjs:44-62 | The subscription starts only with a confirmation and ends with the close. |
| Bridge.WelcomeSubscribes | src/agent_connection.mjs:41-43 | A welcome produces exactly one subscribe command, naming `AgentChannel`. |
| Bridge.NoInstructionWithoutMessage | src/agent_connection.mjs:51-55 | Pings, and frames without a truthy `message`, reach no instruction. |
| Bridge.QuietStep | src/agent_connection.mjs:41-62 | Before a confirmation, no event subscribes the connection or sends a channel message. |
| Bridge.NothingSentBeforeConfirm | src/agent_connection.mjs:88-92 | Until Rails confirms the subscription, nothing the orchestrator sends goes out. |
| Chat.SendIfOpen | src/public/chat.js:93-97 | A request is written exactly while the socket is open. |
| Chat.RequestPayload | src/public/chat.js:294-397 | Every request carries its action name. |
| Chat.RequestRoundTrip | src/public/chat.js:294-397 | Every request the page sends reads back as itself. |
| Chat.RequestsAreInstructions | src/agent_connection.mjs:127-145 | The page's login and chat requests name the same operations in the agent's instruction dispatcher. |
| Chat.StartValid | src/public/chat.js:15-20 | The page starts valid, with the input disabled and no socket. |
| Chat.MessageKeepsValid | src/public/chat.js:108-163 | Every server message keeps the page's invariant. |
| Chat.StepKeepsValid | src/public/chat.js:51-351 | Every event keeps the page's invariant. The error banner shows exactly in the error state. |
| Chat.RunKeepsValid | src/public/chat.js:51-351 | The invariant holds over any run of events. |
| Chat.AuthStatusMoves | src/public/chat.js:109-120 | `authenticated` logs the page in unless it waits for a reply. Any other status logs it out unless a login is in progress. |
| Chat.LoginMessages | src/public/chat.js:122-132 | A login URL opens the dialog exactly when the URL is truthy. A success forgets the URL and logs the page in. |
| Chat.ErrorMessage | src/public/chat.js:134-139 | An error shows its message, or the default text, and stops the response timeout. |
| Chat.ChatMessages | src/public/chat.js:141-155 | A reply ends the wait and shows the reply. A user's message is shown and changes nothing. An untyped message changes nothing. |
| Chat.SubmitWaits | src/public/chat.js:318-331 | A non-blank message from the logged-in state makes the page wait for the reply, with the timeout running. |
| Chat.SubmitRequest | src/public/chat.js:324-330 | The accepted message goes out trimmed, if the socket is open. |
| Chat.SubmitIgnored | src/public/chat.js:323-325 | Any other submission does nothing. In particular a waiting page sends no second message. |
| Chat.CloseMoves | src/public/chat.js:70-80 | Close code 4000 stops the page with the session-taken message. Any other close shows the agent offline and schedules a reconnect. |
| Chat.TimeoutFires | src/public/chat.js:333-339 | The timeout moves a waiting page to the error state, once. |
| Chat.PickToggles | src/public/chat.js:384-388 | Clicking the selected model deselects it, and clicking another selects it. Two more clicks restore the choice. |

## Left out

- The Opencode strategy class: `opencode.mjs` is not part of this model. Its provider name resolves, and `Registry.Behaviour` answers `Unknown` for it.
- Credentials.ClearRemovesExactly: a credential path is the home directory, `/` and the name. `path.join` also normalises the home directory (a trailing `/`, doubled slashes, `.` and `..`), so the model holds only for a `HOME` that is already normal. The paths it names for another `HOME` differ from the ones removed.
- Hub.Arrival: when the cookie test throws, the exception leaves the connection listener uncaught. What Node and the WebSocket library then do with the process and the socket is not modelled. The hub records the throw and leaves its state unchanged apart from the socket count.
- The orchestrator that wires `AgentConnection`, the chat server, the stores and a strategy together (`agent.mjs`, `index.mjs`) is not part of this model. Each side is modelled on its own, with events and effects at its boundary.
- Registry.Resolve: the error message lists the providers through a joined string. Its exact text is stated only by definition, because a lemma about the joined literal was too costly to prove. The `not a constructor` message is V8's wording for a `new` on such a value.
- Process spawning, stdin writes, `http.get`, file reads and writes, and the clock are effects or parameters. Their own failures are the `Failed`/`Errored` events, `Malformed` files and settlements given as parameters. The exception is the synchronous throw of `http.get` on a URL it cannot parse, which is a `Threw`.
- Timers (the response timeout, the reconnect delay, the 30-second heartbeat, the 1-second mock delay, the model-input debounce) are pending flags with an event for when they fire. Their durations are not modelled.
- Concurrency within an `async` handler: each await is atomic, with its answer a parameter. The legacy consumer's prompt is split into admission and settlement so that `BLOCKED` is observable.
- JSON text framing (`JSON.stringify`/`JSON.parse` of whole frames) is not modelled. Frames are parsed values, or `None` when the text does not parse. Numbers are integers.
- The WebSocket `readyState` window between a socket starting to close and its close event: a socket is live from admission until its close event.
- Cookie parsing follows the `cookie-parser` rules the gate depends on: split at `;`, trim, first pair wins, percent-decode. Quoted values and `j:` JSON cookies are not modelled.
- Rendering: DOM updates, message timestamps formatted as hours and minutes, HTML escaping, header texts and placeholders. Only the predicates that decide what is enabled or shown are modelled.
- The chat input's keydown filter (Enter without Shift) is not modelled: a `Submit` event is a submission that passed it.
- Logging (`console.*`) has no observable effect and is omitted.
- `CHAT_PORT`, `WS_URL`, `PLAYGROUND_ID`, `DATA_DIR` and the `mkdirSync` of the data and playground directories only choose addresses and locations.
- Consumer.HandlerThrew: the legacy consumer's `message` handler is `async`, so a throw inside it rejects a promise nobody awaits. The model records the rejection and leaves the consumer unchanged. What Node does with an unhandled rejection is not modelled.
- Bridge.Threw: a frame that parses to `null` makes the socket's `message` listener throw out of an EventEmitter callback. The model records the throw and leaves the connection unchanged. What Node then does with the uncaught exception is not modelled.
- Auth.StepAsWritten: a `Threw` is the exception `submitAuthCode` throws to its caller. For the strategies that caller is the orchestrator, which is not part of this model, so where the exception goes from there is not modelled. For the legacy module it is `Consumer.HandlerThrew`.
- Auth.SubmitThrows: of the checks that make `http.get` throw on a URL, only the port check is modelled (`Callback.UrlAccepted`). A pasted `http://localhost…` URL that the parser refuses for another reason is taken as requested. Such reasons include a forbidden host character, an empty host after `@`, a bad percent-escape in the host, or a bracketed IPv6 host. Tabs and newlines, which the parser removes before reading, are kept.
- Scrape.CallbackPort: `parseInt` of more than 15 digits gives an inexact double, and the URL then shows that double. The model keeps the exact number. Every such port is above 65535, so the request throws in both.
- Uri.Encode: a Dafny `char` cannot hold a lone surrogate, so the `URIError` that `encodeURIComponent` throws for one is not modelled.
- Gemini's `error` listener on the login process only logs. It is the `Failed` event, which changes nothing.

## Findings

| source | as written | input that shows it | evidently intended | confidence | as-written member | corrected member |
|---|---|---|---|---|---|---|
| src/strategies/openai_codex.mjs:45-57 (and the same listener in src/strategies/gemini.mjs:48-60 and src/strategies/claude_code.mjs:59-71) | The close listener of a login process reads the strategy's current `currentConnection` and `activeAuthProcess`, not those of its own session. The legacy module does the same through its globals (src/gemini.mjs:40-49): see Consumer.ReplacedLoginReports. | `executeAuth(c1)`, `cancelAuth()`, `executeAuth(c2)`, then the killed first process closes with `null`. `c2` hears `unauthenticated`, and the new session is cleared while its CLI still runs, so it can no longer be cancelled or given a code. | A listener of a process that is no longer the active one does nothing. | not executed | Auth.StaleCloseHitsNewSession | Auth.RunKeepsOwners |
| src/server.mjs:103-105 | The WebSocket handler calls `decodeURIComponent` on the cookie value with no `try`. | `Cookie: agent_auth=%` with any password set. The handler throws out of the connection listener instead of closing the socket, while the HTTP gate, whose cookie parser keeps undecodable values as they are, answers 401. | A cookie that does not decode is refused with 4001. | not executed | CookieFinding.MalformedCookieThrows | Server.CookieCheck |
| src/server.mjs:102-110 | The WebSocket cookie test takes the leftmost match of `/agent_auth=([^;]+)/` anywhere in the `Cookie` header. | `Cookie: my_agent_auth=x; agent_auth=secret` with password `secret`. The HTTP gate passes, but the WebSocket closes with 4001. | The WebSocket reads the cookie named exactly `agent_auth`, as the HTTP gate does. | not executed | CookieFinding.ShadowedCookieRefused | Server.CookieCheck |
