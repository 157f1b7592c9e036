# AWS Bedrock chatbot: a verified model of its core

The chatbot talks to a hosted model endpoint from the command line. Its core is in `app.py`, and this project models three parts of it:

- **The conversation session** (`BedrockChatbot`).
  - A session holds a model id and a turn history.
  - A model id containing `titan`, in any letter case, selects the Titan family. A Titan request carries only the current message, and a Titan session never touches its history.
  - Every other model id selects the Claude family. A Claude request replays the whole history. The user turn is appended before the call, and the assistant turn after a reply that parses.
  - `chat` never raises. Every failure comes back as a string that carries a marker: the payment-pending warning, `AWS Error (...)` or `Error: ...`.
- **Model negotiation** (the candidate loop of `main`).
  - Each candidate gets a fresh session, which is probed with `"Hi"` and then `"Test"`.
  - A reply that carries a failure marker rejects the candidate, and the second probe is sent only when the first reply was clean.
  - The first candidate whose two replies are both clean is committed, after its history is cleared.
- **The chat loop** (the end of `main`).
  - Each input line is stripped, and blank lines are skipped.
  - `exit` or `quit`, in any case, ends the loop. `clear` clears the history.
  - Anything else is sent with `chat`.

The remote endpoint is an oracle, `Remote.Endpoint`.
- The answer to the n-th call of a run is an arbitrary function of n, the model id and the request body. So one endpoint can succeed for one model and fail for another, or fail only on a second probe.
- The endpoint logs every call it receives, so contracts can say exactly which calls were made.
- A failing session constructor inside the candidate loop is a second oracle, `clientFails(position)`.

Files:
- `wrappers.dfy`: Option and Result.
- `sequences.dfy`: associativity of concatenation, the one sequence law the proofs call on by name.
- `text.dfy`: Python's `in` on strings, `str.strip()` and `str.lower()`.
- `adapter.dfy`: turns, request bodies, decoded response bodies and reply extraction, including the text of the Python exceptions that extraction raises.
- `remote.dfy`: the endpoint oracle.
- `markers.dfy`: the marker strings and the classification of a probe reply.
- `session.dfy`: the `Chatbot` class, the error mapping, and the replay laws for a run of `chat` calls.
- `negotiator.dfy`: one candidate tried, the list of attempts made (`Attempts`) and the negotiation loop.
- `commands.dfy`: the classification of an input line.
- `console.dfy`: the chat loop.

The stateful parts are imperative Dafny:
- `Chatbot.Chat`, `Chatbot.ClearHistory`, `Negotiator.Negotiate` and `Console.RunChat` change a `Chatbot` object and the endpoint's call log in place.
- Each of them is proved against a pure function: `Exchange`, `Attempts` or `ChatLoop`.
- The laws are proved about those functions.

## Model

| member | source | states |
|---|---|---|
| `Text.ContainsIffOccurs` | app.py:83 | Python's `sub in s` holds exactly when `sub` occurs at some position of `s`, in both directions |
| `Text.StripUnique` | app.py:181 | `strip()` of a string that neither starts nor ends with whitespace, surrounded by whitespace, gives back exactly that string |
| `Text.StripDecomposes` | app.py:181 | every string is its stripped form with whitespace on both sides |
| `Text.StripIgnoresPadding` | app.py:181 | extra whitespace around a string does not change its `strip()` |
| `Text.Strip` | app.py:181 | the result is empty exactly when the input is all whitespace; otherwise it neither starts nor ends with whitespace |
| `Text.LowerIsLower` | app.py:186-190 | comparing `lower()` with a word character by character agrees with comparing the lower-cased string |
| `Adapter.RequestFor` | app.py:29-53 | a Titan request exactly when the model id has `titan` in it, carrying only the message and 2000 max tokens; a Claude request carries the prior history unchanged plus the new user turn, version `bedrock-2023-05-31` and 2000 max tokens |
| `Adapter.Field` | app.py:66 | `v[key]` succeeds exactly on an object that has the key and returns its value; a missing key raises `KeyError` with the quoted key |
| `Adapter.ExtractReply` | app.py:63-69 | for any response body, whatever other keys it has: extraction succeeds exactly when the body is an object whose `results` (Titan) or `content` (Claude) list starts with an object holding a string under `outputText` or `text`, and the reply is then that string; without the list key the failure is the `KeyError` for it |
| `Adapter.ExtractReplyBody` | app.py:64-69 | a well-formed response of either family gives back exactly the text it carries |
| `Adapter.ExtractReplyEmptyList` | app.py:66 | an empty `results`/`content` list is `IndexError: list index out of range` |
| `Remote.Endpoint.InvokeModel` | app.py:56-59 | one call is appended to the log, and the answer is the oracle's answer for that call's position in the log |
| `Markers.Classify` | app.py:127-141 | a probe reply is usable exactly when it contains none of the four markers; payment markers take precedence over the error markers |
| `Session.ResolveModelId` | app.py:19-22 | a non-empty requested id is kept; a missing or empty one selects the Claude 3.7 Sonnet default; the result is never empty |
| `Session.FailureReply` | app.py:78-88 | the payment-pending string exactly for a ClientError mentioning `INVALID_PAYMENT_INSTRUMENT` (and only it starts with the warning sign), `AWS Error (code): message` for other ClientErrors, `Error: text` otherwise; no failure reply is ever usable as a probe reply |
| `Session.Parse` | app.py:56-88 | a ClientError is caught as that code and message; any other exception as its text; a response body yields its reply text exactly when it carries one, and otherwise the text of the exception extraction raises |
| `Session.Exchange` | app.py:25-88 | Titan leaves the history unchanged; for Claude a parsed reply adds the user and assistant turns and a failure adds only the user turn; a parsed reply is returned as is; a failure returns exactly the string `FailureReply` gives for the caught error, which is classified as unusable |
| `Session.Chatbot.constructor` | app.py:12-23 | a new session has the resolved model id and an empty history |
| `Session.Chatbot.Chat` | app.py:25-88 | exactly one endpoint call with the body `RequestFor` builds from the history held before it; the reply and the new history are those `Exchange` gives for the oracle's answer; the model id is unchanged |
| `Session.Chatbot.ClearHistory` | app.py:90-93 | the history is empty afterwards, the model id unchanged, and the reply is the fixed confirmation |
| `Session.ClearIsIdempotent` | app.py:90-93 | clearing twice leaves the state one clear leaves and confirms the same way both times |
| `Session.InterleaveAlternates` | app.py:43-46 | the turns that k successful exchanges add are exactly 2k, alternating user/assistant, with the messages and replies in order |
| `Session.ClaudeReplay` | app.py:43-76 | in the Claude family, after k successful calls the history is the old history plus the alternating turns, the replies are the texts returned, and the j-th request replays the history before it unchanged plus the new user turn |
| `Session.TitanStateless` | app.py:29-40 | in the Titan family, whatever the endpoint answers, the history never changes and every request carries only that call's message |
| `Negotiator.TryCandidate` | app.py:119-152 | no calls when construction fails; a rejected first probe means exactly one call; a commit exactly when both replies are usable; every call is for the candidate's model; the first carries only `"Hi"` on an empty history and its reply is what `chat` makes of the endpoint's answer to it; the second is `"Test"` on the history the first exchange left, and its reply is what `chat` makes of the endpoint's answer to the next call |
| `Negotiator.CommittedClaudeProbesReplay` | app.py:124-135 | a committed Claude-family candidate's second probe carries the `"Hi"` turn, the first reply and the `"Test"` turn |
| `Negotiator.AttemptsShape` | app.py:118-154 | negotiation stops at the first commit: no attempt before the last one commits, it ends early only by committing, and it makes at most two calls per candidate tried |
| `Negotiator.MainListCallBound` | app.py:107-154 | with the five candidates of `main`, negotiation makes at most ten endpoint calls, whatever the endpoint answers |
| `Negotiator.AttemptsAreTries` | app.py:118-121 | candidates are tried in list order, each at the call index the attempts before it leave behind |
| `Negotiator.NoCommitMeansAllRejected` | app.py:150-154 | when nothing is committed every candidate was tried and rejected, with at most 2n calls for n candidates |
| `Negotiator.TryOne` | app.py:119-148 | one pass of the candidate loop makes exactly the calls `TryCandidate` predicts and returns a fresh session on the same endpoint, with an empty history and the candidate's model, exactly when the attempt commits |
| `Negotiator.Negotiate` | app.py:115-154 | the loop makes exactly the calls of `Attempts`, returns a session exactly when the attempts end in a commit, and that session is fresh, has an empty history and the committed candidate's model and name |
| `Commands.SkipIffBlank` | app.py:181-184 | a line is skipped exactly when it is all whitespace |
| `Commands.QuitIffQuitWord` | app.py:181-188 | a line ends the session exactly when, stripped and lower-cased, it is `exit` or `quit` |
| `Commands.ClearIffClearWord` | app.py:181-192 | a line clears the history exactly when, stripped and lower-cased, it is `clear` |
| `Commands.OtherLinesAreSent` | app.py:181-195 | a line is sent exactly when it is neither blank nor a command word, and then it is sent as the stripped line |
| `Commands.SentMessageIsTrimmed` | app.py:181-195 | a message sent is never empty and never starts or ends with whitespace |
| `Commands.SentMessageIsNoCommand` | app.py:186-195 | a message sent never lower-cases to `exit`, `quit` or `clear` |
| `Commands.SendIsTrimmedLine` | app.py:181-195 | the message sent is the input line with only surrounding whitespace removed |
| `Commands.DispatchIgnoresPadding` | app.py:181 | whitespace around a line never changes what it means |
| `Commands.CommandWordsAnyCase` | app.py:186-192 | `exit`, `quit` and `clear` are recognised in any letter case and with any surrounding whitespace |
| `Console.PerformEffect` | app.py:190-196 | only a message calls the endpoint, with the request built from the current history; `clear` empties the history and shows the confirmation; blank lines and quit leave the history alone |
| `Console.Execute` | app.py:190-196 | carrying out a command changes the session and the call log exactly as `Perform` says |
| `Console.ChatLoopStopsAtFirstQuit` | app.py:179-188 | the loop reads every line up to and including the first quit and no further |
| `Console.CommandsAfterQuitIgnored` | app.py:186-188 | whatever is typed after a quit has no effect |
| `Console.RunChat` | app.py:178-200 | the loop reads, shows, calls and leaves in the history exactly what `ChatLoop` over the classified lines says |

## Left out

- Only the endpoint oracle stands in for the boto3 client and `invoke_model` (app.py:15-18, 56-59). Transport, credentials and the region's effect are not modelled, and the region is only stored.
- Request and response bodies are datatypes. `json.dumps`, `json.loads` and reading the body stream (app.py:58, 62) are not modelled, so a body that is not valid JSON is just one more `OtherError` from the oracle.
- JSON numbers are integers. JSON floats are not modelled.
- Temperature 0.7 and top-p 0.9 are opaque `real` constants that are never reasoned about.
- All printing is left out. That covers the banner, the troubleshooting text (app.py:97-104, 155-175) and the progress lines in the candidate loop.
- The console is a list of input lines, and its end stands for a KeyboardInterrupt (app.py:198-200).
  - `input()` raising `EOFError` is not modelled. In the code, the generic handler (app.py:201-202) catches it, and the loop prompts again.
  - Any other exception inside the loop is not modelled either, because `chat` never raises.
- `Text.Lower`: only ASCII letters are lower-cased. Python's `str.lower()` also maps other letters, and two of them lower-case to ASCII: U+212A KELVIN SIGN becomes `k`, and U+0130 becomes `i` followed by U+0307. Neither changes the outcome of the comparisons the code makes. None of `titan`, `exit`, `quit`, `clear` contains `k`. A U+0307 after the `i` makes a whole-line comparison fail, and it cannot sit inside an occurrence of `titan`. So the comparisons with `exit`, `quit`, `clear` and the search for `titan` come out as in Python.
- `Adapter.ExtractReply`: a reply text that is not a JSON string is reported as a `TypeError` failure here, so `chat` returns an `Error: ` string and, for Claude, adds no assistant turn. Python returns the value itself. A number, boolean or null then makes the marker test in the candidate loop raise, and the candidate is rejected, as in the model. But a list or an object passes that test without raising: Python treats it as a clean reply and can commit to the candidate, where the model rejects it. In the chat loop, Python prints such a value and keeps it in the Claude history, where the model shows the error string.
- `Adapter.Field`: `TypeError` texts follow one Python version's wording.
- A `ClientError` whose response lacks `Error.Code` or `Error.Message` is not modelled. The code would raise `KeyError` from inside its own handler.
- `Negotiator.Negotiate`: its contract names the attempts through `MainTrier`, which is `TryCandidate` on the same oracles. The laws about `Attempts` (`AttemptsShape`, `AttemptsAreTries`, `NoCommitMeansAllRejected`) hold for any trier that keeps to at most two calls per candidate.
- check_models.py and test_connection.py are diagnostic scripts. Their only logic is substring tests that repeat app.py's classification, so they are not part of this model.
- Retrying a candidate is not modelled, because the code never retries. A payment-pending reply and an inaccessible model both move on to the next candidate (app.py:127-141). `Classify` keeps the two verdicts apart only in the attempt record.
